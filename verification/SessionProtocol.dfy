/**
 Any number of clients signing in, refreshing and logging out against one store.

 A `/refresh` request is a small program over the store (backend/app/routers/auth.py): it reads the
 primary row, falls back to the grace row, checks the family, rotates, and re-probes when another
 request won.  Between any two of its store calls every other client may step, the clock may advance,
 and the request may be refused or time out.  `Apply` is that step relation; the lemmas speak of every
 run of it.
 */
module SessionProtocol {
  import opened Options
  import opened SessionStore
  import opened SessionWorld

  // The signed content of a refresh cookie.
  datatype Claims = Claims(jti: Jti, sid: Sid, userId: int)

  // Which store call a request makes next, or how it ended.
  datatype Stage =
    | ReadingPrimary
    | ReadingGrace
    | CheckingFamily(row: GraceRow)
    | CheckingMember
    | Rotating(lastTry: bool)
    | ReadingGraceAgain
    | CheckingFamilyAgain(again: Option<GraceRow>)
    | ReadingSuccessor(successor: Jti)
    | CheckingSuccessor(successor: Jti)
    | Accepted(cookie: Jti)
    | Unauthorized
    | Unavailable
  {
    predicate Over() {
      Accepted? || Unauthorized? || Unavailable?
    }
  }

  datatype Request = Request(claims: Claims, stage: Stage)

  // One read of the store and the local checks up to the next store call.
  function Read(s: Store, now: nat, c: Claims, stage: Stage): Stage {
    match stage
    case ReadingPrimary =>
      var row := Validate(s, now, c.jti);
      if row.None? then ReadingGrace
      else if row.value != PrimaryRow(c.userId, c.sid) then Unauthorized
      else CheckingMember
    case ReadingGrace =>
      var row := Grace(s, now, c.jti);
      if row.None? then Unauthorized else CheckingFamily(row.value)
    case CheckingFamily(row) =>
      if FamilyExists(s, now, c.sid) && row.userId == c.userId && row.sid == c.sid
      then ReadingSuccessor(row.successor) else Unauthorized
    case CheckingMember =>
      if FamilyMember(s, now, c.sid, c.jti) then Rotating(false) else Unauthorized
    case ReadingGraceAgain => CheckingFamilyAgain(Grace(s, now, c.jti))
    case CheckingFamilyAgain(again) =>
      if again.Some? && FamilyExists(s, now, c.sid) && again.value.userId == c.userId && again.value.sid == c.sid
      then ReadingSuccessor(again.value.successor) else Unauthorized
    case ReadingSuccessor(successor) =>
      if Validate(s, now, successor) == Some(PrimaryRow(c.userId, c.sid))
      then CheckingSuccessor(successor) else Unauthorized
    case CheckingSuccessor(successor) =>
      if FamilyMember(s, now, c.sid, successor) then Accepted(successor) else Unauthorized
    case _ => stage
  }

  function AfterRotate(reply: RotateReply, newJti: Jti, lastTry: bool): Stage {
    match reply
    case RotateOk => Accepted(newJti)
    case SessionRevoked => Unauthorized
    case AlreadyRotated => ReadingGraceAgain
    case JtiCollision => if lastTry then Unavailable else Rotating(true)
  }

  // ---------- session lifetimes ----------

  const SECONDS_PER_DAY: nat := 86400

  // The organisation's setting counts when it is a number of days in range; otherwise the default does.
  function OrgSessionTtlSeconds(storedDays: Option<int>, defaultDays: int): (ttl: int)
    requires 1 <= defaultDays <= 365
    ensures GRACE_TTL_SECONDS < SECONDS_PER_DAY <= ttl <= 365 * SECONDS_PER_DAY
  {
    if storedDays.Some? && 1 <= storedDays.value <= 365 then storedDays.value * SECONDS_PER_DAY
    else defaultDays * SECONDS_PER_DAY
  }

  // A lifetime of so many days comes out of the setting exactly when they are in range and are what is
  // stored, or are the default and nothing in range is stored.
  lemma LifetimeIsIff(storedDays: Option<int>, defaultDays: int, days: int)
    requires 1 <= defaultDays <= 365
    ensures OrgSessionTtlSeconds(storedDays, defaultDays) == 86400 * days <==>
              || (1 <= days <= 365 && storedDays == Some(days))
              || (days == defaultDays && forall d :: 1 <= d <= 365 ==> storedDays != Some(d))
  {
  }

  // ---------- the step relation ----------

  // `pending` holds the lists of the logouts between their two rounds; one that crashed stays there.
  // `world` is history: no step but minting looks at it.
  datatype State = State(
    store: Store,
    now: nat,
    requests: map<nat, Request>,
    pending: map<Sid, set<Jti>>,
    world: World)

  datatype Action =
    | Tick(elapsed: nat)
    | Login(jti: Jti, sid: Sid, userId: int, days: nat)
    | LoginAgain(sid: Sid, days: nat)
    | Begin(id: nat, claims: Claims)
    | ReadStep(id: nat)
    | RotateStep(id: nat, newJti: Jti, days: nat, replyLost: bool)
    | Stop(id: nat, unavailable: bool)
    | RoundA(sid: Sid)
    | RoundB(sid: Sid)

  function Start(): State {
    State(Store(map[], map[], map[]), 0, map[], map[], World(map[], map[]))
  }

  // The clock is monotone, lifetimes are 1..365 days, a signed-in session is new, and a token minted for
  // a rotation is new or repeats a token whose row is live (the case the script guards against).
  predicate Enabled(st: State, a: Action) {
    match a
    case Tick(_) => true
    case Login(jti, sid, _, days) => 1 <= days <= 365 && jti !in st.world.place && sid !in st.world.sessions
    case LoginAgain(sid, days) =>
      1 <= days <= 365 && sid in st.world.sessions
      && st.world.sessions[sid].phase == Active && |st.world.sessions[sid].chain| == 1
    case Begin(id, _) => id !in st.requests
    case ReadStep(id) => id in st.requests && !st.requests[id].stage.Rotating? && !st.requests[id].stage.Over()
    case RotateStep(id, newJti, days, _) =>
      id in st.requests && st.requests[id].stage.Rotating? && 1 <= days <= 365 && MintedWell(st.world, st.now, newJti)
    case Stop(id, _) => id in st.requests && !st.requests[id].stage.Over()
    case RoundA(_) => true
    case RoundB(sid) => sid in st.pending
  }

  function MoveTo(st: State, id: nat, stage: Stage): State
    requires id in st.requests
  {
    st.(requests := st.requests[id := st.requests[id].(stage := stage)])
  }

  // A rotation whose reply is lost has happened in the store; its request is still rotating, and the
  // client library may run the script again.
  function ApplyRotate(st: State, id: nat, newJti: Jti, days: nat, replyLost: bool): State
    requires id in st.requests && st.requests[id].stage.Rotating?
  {
    var c, ttl := st.requests[id].claims, days * SECONDS_PER_DAY;
    var reply := RotateVerdict(st.store, st.now, c.jti, newJti, c.sid);
    var moved := if replyLost then st else MoveTo(st, id, AfterRotate(reply, newJti, st.requests[id].stage.lastTry));
    moved.(store := Rotate(st.store, st.now, c.jti, newJti, c.sid, c.userId, ttl),
           world := if reply == RotateOk then Extended(st.world, st.now, newJti, c.sid, ttl) else st.world)
  }

  function Apply(st: State, a: Action): State
    requires Enabled(st, a)
  {
    match a
    case Tick(elapsed) => st.(now := st.now + elapsed)
    case Login(jti, sid, userId, days) =>
      st.(store := Issue(st.store, st.now, jti, sid, userId, days * SECONDS_PER_DAY),
          world := Begun(st.world, st.now, jti, sid, userId, days * SECONDS_PER_DAY))
    case LoginAgain(sid, days) =>
      var sess := st.world.sessions[sid];
      st.(store := Issue(st.store, st.now, sess.Last(), sid, sess.userId, days * SECONDS_PER_DAY),
          world := Reissued(st.world, st.now, sid, days * SECONDS_PER_DAY))
    case Begin(id, claims) => st.(requests := st.requests[id := Request(claims, ReadingPrimary)])
    case ReadStep(id) => MoveTo(st, id, Read(st.store, st.now, st.requests[id].claims, st.requests[id].stage))
    case RotateStep(id, newJti, days, replyLost) => ApplyRotate(st, id, newJti, days, replyLost)
    case Stop(id, unavailable) => MoveTo(st, id, if unavailable then Unavailable else Unauthorized)
    case RoundA(sid) =>
      st.(store := RevokeRoundA(st.store, sid),
          pending := if FamilyExists(st.store, st.now, sid)
                     then st.pending[sid := Members(st.store, st.now, sid).value] else st.pending,
          world := AfterRoundA(st.world, st.now, sid))
    case RoundB(sid) =>
      st.(store := RevokeRoundB(st.store, st.pending[sid]),
          pending := st.pending - {sid},
          world := InPhase(st.world, sid, Closed))
  }

  // ---------- what a request in each stage may rely on, whoever steps ----------

  predicate Bound(w: World, c: Claims) {
    && c.jti in w.place && w.place[c.jti].sid == c.sid
    && c.sid in w.sessions && w.sessions[c.sid].userId == c.userId
  }

  predicate Successor(w: World, c: Claims, j: Jti) {
    && Bound(w, c)
    && w.place[c.jti].index + 1 < |w.sessions[c.sid].chain|
    && j == w.sessions[c.sid].chain[w.place[c.jti].index + 1]
  }

  predicate RowOf(w: World, jti: Jti, row: GraceRow) {
    Successor(w, Claims(jti, row.sid, row.userId), row.successor)
  }

  predicate RequestOk(w: World, r: Request) {
    match r.stage
    case CheckingFamily(row) => RowOf(w, r.claims.jti, row)
    case CheckingMember => Bound(w, r.claims)
    case Rotating(_) => Bound(w, r.claims)
    case ReadingGraceAgain => Bound(w, r.claims)
    case CheckingFamilyAgain(again) => again.Some? ==> RowOf(w, r.claims.jti, again.value)
    case ReadingSuccessor(j) => Successor(w, r.claims, j)
    case CheckingSuccessor(j) => Successor(w, r.claims, j)
    case Accepted(j) => Successor(w, r.claims, j)
    case _ => true
  }

  // Every list a logout still has to clean is the whole chain of a session nobody can extend any more.
  ghost predicate PendingOk(w: World, pending: map<Sid, set<Jti>>) {
    forall s :: s in pending ==>
      s in w.sessions && w.sessions[s].phase == Orphaned && pending[s] == Tokens(w.sessions[s].chain)
  }

  ghost predicate Inv(st: State) {
    && Refines(st.store, st.world, st.now)
    && PendingOk(st.world, st.pending)
    && (forall id :: id in st.requests ==> RequestOk(st.world, st.requests[id]))
  }

  // History only grows: chains are extended, owners stay, and a logged-out session stays so.
  function Rank(p: Phase): nat {
    match p case Active => 0 case Orphaned => 1 case Closed => 2
  }

  ghost predicate Grows(w: World, w': World) {
    && (forall s :: s in w.sessions ==>
          && s in w'.sessions && w'.sessions[s].userId == w.sessions[s].userId
          && w.sessions[s].chain <= w'.sessions[s].chain
          && (w.sessions[s].phase != Active ==> w'.sessions[s] == w.sessions[s].(phase := w'.sessions[s].phase))
          && Rank(w.sessions[s].phase) <= Rank(w'.sessions[s].phase))
    && (forall j :: j in w.place ==> j in w'.place && w'.place[j] == w.place[j])
  }

  lemma GrowthKeepsRequests(w: World, w': World, r: Request)
    requires Grows(w, w') && RequestOk(w, r)
    ensures RequestOk(w', r)
  {
  }

  // A read of the store decides by the rows of the presented token alone.
  lemma RowReadSound(s: Store, w: World, now: nat, r: Request)
    requires RowsRefine(s, w, now, r.claims.jti) && RequestOk(w, r)
    requires r.stage.ReadingPrimary? || r.stage.ReadingGrace? || r.stage.ReadingGraceAgain?
    ensures RequestOk(w, r.(stage := Read(s, now, r.claims, r.stage)))
  {
  }

  // Every other read only passes on what the request already knows.
  lemma CheckSound(s: Store, w: World, now: nat, r: Request)
    requires RequestOk(w, r)
    requires !r.stage.ReadingPrimary? && !r.stage.ReadingGrace? && !r.stage.ReadingGraceAgain?
    ensures RequestOk(w, r.(stage := Read(s, now, r.claims, r.stage)))
  {
  }

  lemma ReadStepSound(st: State, r: Request)
    requires Refines(st.store, st.world, st.now)
    requires RequestOk(st.world, r) && !r.stage.Rotating? && !r.stage.Over()
    ensures RequestOk(st.world, r.(stage := Read(st.store, st.now, r.claims, r.stage)))
  {
    if r.stage.ReadingPrimary? || r.stage.ReadingGrace? || r.stage.ReadingGraceAgain? {
      assert RowsRefine(st.store, st.world, st.now, r.claims.jti);
      RowReadSound(st.store, st.world, st.now, r);
    } else {
      CheckSound(st.store, st.world, st.now, r);
    }
  }

  lemma ExtendedGrows(w: World, now: nat, newJti: Jti, sid: Sid, ttl: nat, pending: map<Sid, set<Jti>>)
    requires PendingOk(w, pending)
    requires sid in w.sessions && w.sessions[sid].phase == Active && newJti !in w.place
    ensures Grows(w, Extended(w, now, newJti, sid, ttl)) && PendingOk(Extended(w, now, newJti, sid, ttl), pending)
  {
  }

  lemma InPhaseGrows(w: World, sid: Sid, phase: Phase)
    requires sid in w.sessions ==> Rank(w.sessions[sid].phase) <= Rank(phase)
    ensures Grows(w, InPhase(w, sid, phase))
  {
  }

  lemma RoundAPending(w: World, sid: Sid, phase: Phase, pending: map<Sid, set<Jti>>)
    requires PendingOk(w, pending) && sid in w.sessions && w.sessions[sid].phase == Active
    ensures phase == Orphaned ==> PendingOk(InPhase(w, sid, phase), pending[sid := Tokens(w.sessions[sid].chain)])
    ensures phase == Closed ==> PendingOk(InPhase(w, sid, phase), pending)
  {
  }

  lemma RoundBPending(w: World, sid: Sid, pending: map<Sid, set<Jti>>)
    requires PendingOk(w, pending)
    ensures PendingOk(InPhase(w, sid, Closed), pending - {sid})
  {
  }

  // A rotation's effect on the store, and the link it leaves behind when it wins.
  lemma RotationSound(st: State, a: Action)
    requires a.RotateStep? && Enabled(st, a)
    requires Refines(st.store, st.world, st.now) && PendingOk(st.world, st.pending)
    requires Bound(st.world, st.requests[a.id].claims)
    ensures var st', c := Apply(st, a), st.requests[a.id].claims;
            && Refines(st'.store, st'.world, st'.now) && Grows(st.world, st'.world) && PendingOk(st'.world, st'.pending)
            && (RotateVerdict(st.store, st.now, c.jti, a.newJti, c.sid) == RotateOk ==>
                  Successor(st'.world, c, a.newJti))
  {
    var c, w := st.requests[a.id].claims, st.world;
    VerdictIsChainVerdict(st.store, w, st.now, c.jti, a.newJti, c.sid);
    if RotateVerdict(st.store, st.now, c.jti, a.newJti, c.sid) == RotateOk {
      RotateRefines(st.store, w, st.now, c.jti, a.newJti, c.sid, a.days * SECONDS_PER_DAY);
      ExtendedGrows(w, st.now, a.newJti, c.sid, a.days * SECONDS_PER_DAY, st.pending);
      LastPlace(w, st.now, c.sid);
      AcceptedNew(w, st.now, c, a.newJti, a.days * SECONDS_PER_DAY);
    }
  }

  lemma ReplySound(w: World, w': World, r: Request, reply: RotateReply, newJti: Jti)
    requires Grows(w, w') && RequestOk(w, r) && r.stage.Rotating?
    requires reply == RotateOk ==> Successor(w', r.claims, newJti)
    ensures RequestOk(w', r) && RequestOk(w', r.(stage := AfterRotate(reply, newJti, r.stage.lastTry)))
  {
    GrowthKeepsRequests(w, w', r);
  }

  lemma RotateStepSound(st: State, a: Action)
    requires a.RotateStep? && Enabled(st, a)
    requires Refines(st.store, st.world, st.now) && PendingOk(st.world, st.pending)
    requires RequestOk(st.world, st.requests[a.id])
    ensures var st' := Apply(st, a);
            && Refines(st'.store, st'.world, st'.now) && Grows(st.world, st'.world) && PendingOk(st'.world, st'.pending)
            && RequestOk(st'.world, st'.requests[a.id])
  {
    var r := st.requests[a.id];
    RotationSound(st, a);
    ReplySound(st.world, Apply(st, a).world, r,
               RotateVerdict(st.store, st.now, r.claims.jti, a.newJti, r.claims.sid), a.newJti);
  }

  lemma LastPlace(w: World, now: nat, sid: Sid)
    requires WellFormed(w, now) && sid in w.sessions
    ensures var last := w.sessions[sid].Last();
            last in w.place && w.place[last] == Place(sid, |w.sessions[sid].chain| - 1)
  {
  }

  lemma AcceptedNew(w: World, now: nat, c: Claims, newJti: Jti, ttl: nat)
    requires Bound(w, c) && newJti !in w.place && w.place[c.jti].index + 1 == |w.sessions[c.sid].chain|
    ensures Successor(Extended(w, now, newJti, c.sid, ttl), c, newJti)
  {
  }

  lemma BegunGrows(w: World, now: nat, jti: Jti, sid: Sid, userId: int, ttl: nat, pending: map<Sid, set<Jti>>)
    requires PendingOk(w, pending) && jti !in w.place && sid !in w.sessions
    ensures Grows(w, Begun(w, now, jti, sid, userId, ttl)) && PendingOk(Begun(w, now, jti, sid, userId, ttl), pending)
  {
  }

  lemma ReissuedGrows(w: World, now: nat, sid: Sid, ttl: nat, pending: map<Sid, set<Jti>>)
    requires PendingOk(w, pending) && sid in w.sessions && w.sessions[sid].phase == Active
    ensures Grows(w, Reissued(w, now, sid, ttl)) && PendingOk(Reissued(w, now, sid, ttl), pending)
  {
  }

  lemma LoginSound(st: State, a: Action)
    requires (a.Login? || a.LoginAgain?) && Inv(st) && Enabled(st, a)
    ensures var st' := Apply(st, a);
            Refines(st'.store, st'.world, st'.now) && Grows(st.world, st'.world) && PendingOk(st'.world, st'.pending)
  {
    var ttl := a.days * SECONDS_PER_DAY;
    if a.Login? {
      IssueRefines(st.store, st.world, st.now, a.jti, a.sid, a.userId, ttl);
      BegunGrows(st.world, st.now, a.jti, a.sid, a.userId, ttl, st.pending);
    } else {
      ReissueRefines(st.store, st.world, st.now, st.world.sessions[a.sid].Last(), a.sid, ttl);
      ReissuedGrows(st.world, st.now, a.sid, ttl, st.pending);
    }
  }

  lemma RoundASound(st: State, sid: Sid)
    requires Inv(st)
    ensures var st' := Apply(st, RoundA(sid));
            Refines(st'.store, st'.world, st'.now) && Grows(st.world, st'.world) && PendingOk(st'.world, st'.pending)
  {
    RoundAReadsTheWholeChain(st.store, st.world, st.now, sid);
    RoundARefines(st.store, st.world, st.now, sid);
    if sid in st.world.sessions && st.world.sessions[sid].phase == Active {
      var phase := if st.now < st.world.sessions[sid].deadline then Orphaned else Closed;
      InPhaseGrows(st.world, sid, phase);
      RoundAPending(st.world, sid, phase, st.pending);
    }
  }

  lemma RoundBCleans(store: Store, w: World, now: nat, pending: map<Sid, set<Jti>>, sid: Sid)
    requires Refines(store, w, now) && PendingOk(w, pending) && sid in pending
    ensures Refines(RevokeRoundB(store, pending[sid]), InPhase(w, sid, Closed), now)
  {
    assert pending[sid] == Tokens(w.sessions[sid].chain) && w.sessions[sid].phase == Orphaned;
    RoundBRefines(store, w, now, sid);
  }

  lemma RoundBSound(st: State, sid: Sid)
    requires Refines(st.store, st.world, st.now) && PendingOk(st.world, st.pending) && sid in st.pending
    ensures var st' := Apply(st, RoundB(sid));
            Refines(st'.store, st'.world, st'.now) && Grows(st.world, st'.world) && PendingOk(st'.world, st'.pending)
  {
    RoundBCleans(st.store, st.world, st.now, st.pending, sid);
    InPhaseGrows(st.world, sid, Closed);
    RoundBPending(st.world, sid, st.pending);
  }

  lemma StepKeepsStore(st: State, a: Action)
    requires Inv(st) && Enabled(st, a)
    ensures var st' := Apply(st, a);
            Refines(st'.store, st'.world, st'.now) && Grows(st.world, st'.world) && PendingOk(st'.world, st'.pending)
  {
    match a {
      case Tick(elapsed) => TickRefines(st.store, st.world, st.now, st.now + elapsed);
      case Login(_, _, _, _) => LoginSound(st, a);
      case LoginAgain(_, _) => LoginSound(st, a);
      case RotateStep(_, _, _, _) => RotateStepSound(st, a);
      case RoundA(sid) => RoundASound(st, sid);
      case RoundB(sid) => RoundBSound(st, sid);
      case _ => assert Apply(st, a).world == st.world;
    }
  }

  lemma StepTouchesRequest(st: State, a: Action, id: nat)
    requires Enabled(st, a) && id in Apply(st, a).requests
    ensures var r := Apply(st, a).requests[id];
            || (a.Begin? && r.stage == ReadingPrimary)
            || r.stage == Unauthorized || r.stage == Unavailable
            || (id in st.requests && r == st.requests[id])
            || (id in st.requests && a == ReadStep(id)
                && r.claims == st.requests[id].claims
                && r.stage == Read(st.store, st.now, r.claims, st.requests[id].stage))
            || (a.RotateStep? && a.id == id)
  {
  }

  lemma StepKeepsRequest(st: State, a: Action, id: nat)
    requires Inv(st) && Enabled(st, a) && id in Apply(st, a).requests
    ensures RequestOk(Apply(st, a).world, Apply(st, a).requests[id])
  {
    StepKeepsStore(st, a);
    StepTouchesRequest(st, a, id);
    if a.RotateStep? && a.id == id {
      RotateStepSound(st, a);
    } else if id in st.requests && Apply(st, a).requests[id] == st.requests[id] {
      GrowthKeepsRequests(st.world, Apply(st, a).world, st.requests[id]);
    } else if a == ReadStep(id) {
      ReadStepSound(st, st.requests[id]);
    }
  }

  // One step of anybody keeps the store a function of the chains and every request's knowledge true.
  lemma StepKeepsInv(st: State, a: Action)
    requires Inv(st) && Enabled(st, a)
    ensures Inv(Apply(st, a)) && Grows(st.world, Apply(st, a).world)
  {
    StepKeepsStore(st, a);
    forall id | id in Apply(st, a).requests
      ensures RequestOk(Apply(st, a).world, Apply(st, a).requests[id])
    {
      StepKeepsRequest(st, a, id);
    }
  }
}
