/**
 `/refresh` and `/verify` (backend/app/routers/auth.py) run to their end at one instant: exactly which
 cookies each of them accepts.
 */
module SessionHandlers {
  import opened Options
  import opened SessionStore
  import opened SessionWorld
  import opened SessionProtocol

  // The validation chain the two endpoints share.  It accepts by reaching the rotation (primary row) or
  // the successor look-up (grace row).
  function Validator(s: Store, now: nat, c: Claims): Stage {
    var first := Read(s, now, c, ReadingPrimary);
    match first
    case ReadingGrace =>
      var grace := Read(s, now, c, first);
      if grace.CheckingFamily? then Read(s, now, c, grace) else grace
    case CheckingMember => Read(s, now, c, first)
    case _ => first
  }

  predicate VerifyNow(s: Store, now: nat, c: Claims) {
    var end := Validator(s, now, c);
    end.Rotating? || end.ReadingSuccessor?
  }

  function CatchUp(s: Store, now: nat, c: Claims, stage: Stage): Stage {
    if stage.ReadingSuccessor? then Read(s, now, c, Read(s, now, c, stage)) else stage
  }

  function Reprobe(s: Store, now: nat, c: Claims): Stage {
    CatchUp(s, now, c, Read(s, now, c, Read(s, now, c, ReadingGraceAgain)))
  }

  // One token is minted; on a collision a second one is, once.
  function RefreshNow(s: Store, now: nat, c: Claims, minted: Jti, spare: Jti, ttl: nat): (Stage, Store) {
    var end := Validator(s, now, c);
    if !end.Rotating? then (CatchUp(s, now, c, end), s)
    else
      var collided := RotateVerdict(s, now, c.jti, minted, c.sid) == JtiCollision;
      var newJti := if collided then spare else minted;
      var s' := Rotate(s, now, c.jti, newJti, c.sid, c.userId, ttl);
      var stage := AfterRotate(RotateVerdict(s, now, c.jti, newJti, c.sid), newJti, collided);
      (if stage.ReadingGraceAgain? then Reprobe(s', now, c) else stage, s')
  }

  // ---------- the two kinds of cookie worth accepting ----------

  predicate Alive(w: World, now: nat, c: Claims) {
    Bound(w, c) && w.sessions[c.sid].phase == Active && now < w.sessions[c.sid].deadline
  }

  // It names the newest token of its session.
  predicate Current(w: World, now: nat, c: Claims) {
    Alive(w, now, c) && w.place[c.jti].index + 1 == |w.sessions[c.sid].chain|
  }

  // It names one rotated out by `lag` rotations, the first of them inside the grace window.
  predicate Lagging(w: World, now: nat, c: Claims, lag: nat) {
    && Alive(w, now, c) && 1 <= lag
    && w.place[c.jti].index + 1 + lag == |w.sessions[c.sid].chain|
    && w.place[c.jti].index < |w.sessions[c.sid].rotatedAt|
    && now < Deadline(w.sessions[c.sid].rotatedAt[w.place[c.jti].index], GRACE_TTL_SECONDS)
  }

  function Lag(w: World, c: Claims): int {
    if Bound(w, c) then |w.sessions[c.sid].chain| - 1 - w.place[c.jti].index else 0
  }

  lemma ValidatorIsTheChain(s: Store, w: World, now: nat, c: Claims)
    requires Refines(s, w, now)
    ensures Validator(s, now, c).Rotating? <==> Current(w, now, c)
    ensures Validator(s, now, c).ReadingSuccessor? <==> 1 <= Lag(w, c) && Lagging(w, now, c, Lag(w, c))
    ensures Validator(s, now, c).ReadingSuccessor? ==>
              Validator(s, now, c).successor == w.sessions[c.sid].chain[w.place[c.jti].index + 1]
    ensures Validator(s, now, c) in {Rotating(false), Unauthorized} || Validator(s, now, c).ReadingSuccessor?
  {
    assert RowsRefine(s, w, now, c.jti);
    assert FamilyRefines(s, w, now, c.sid);
  }

  // /verify accepts the newest token and every token still inside its own grace window.
  lemma VerifyAcceptsExactly(s: Store, w: World, now: nat, c: Claims)
    requires Refines(s, w, now)
    ensures VerifyNow(s, now, c) <==> Current(w, now, c) || (1 <= Lag(w, c) && Lagging(w, now, c, Lag(w, c)))
  {
    ValidatorIsTheChain(s, w, now, c);
  }

  lemma CatchUpIsOneHop(s: Store, w: World, now: nat, c: Claims)
    requires Refines(s, w, now)
    requires 1 <= Lag(w, c) && Lagging(w, now, c, Lag(w, c))
    ensures var successor := w.sessions[c.sid].chain[w.place[c.jti].index + 1];
            CatchUp(s, now, c, ReadingSuccessor(successor))
            == if Lag(w, c) == 1 then Accepted(successor) else Unauthorized
  {
    var successor := w.sessions[c.sid].chain[w.place[c.jti].index + 1];
    assert w.place[successor] == Place(c.sid, w.place[c.jti].index + 1);
    assert RowsRefine(s, w, now, successor);
    assert FamilyRefines(s, w, now, c.sid);
  }

  // Both tokens minted for the request repeat live ones.
  predicate Collides(w: World, minted: Jti, spare: Jti) {
    minted in w.place && spare in w.place
  }

  // /refresh accepts the newest token, by rotating it, unless both minted tokens collide, and a token exactly
  // one rotation behind and inside its grace window, by handing out its successor; it turns every other one
  // away and writes nothing.  The cookie it hands out is the newest token of the session it leaves behind.
  lemma RefreshAcceptsExactly(s: Store, w: World, now: nat, c: Claims, minted: Jti, spare: Jti, ttl: nat)
    returns (w': World)
    requires Refines(s, w, now) && GRACE_TTL_SECONDS <= ttl && 0 < ttl
    requires MintedWell(w, now, minted) && MintedWell(w, now, spare)
    ensures Refines(RefreshNow(s, now, c, minted, spare, ttl).1, w', now)
    ensures RefreshNow(s, now, c, minted, spare, ttl).0.Accepted? <==>
              (Current(w, now, c) && !Collides(w, minted, spare)) || Lagging(w, now, c, 1)
    ensures RefreshNow(s, now, c, minted, spare, ttl).0.Accepted? ==>
              Current(w', now, c.(jti := RefreshNow(s, now, c, minted, spare, ttl).0.cookie))
    ensures Current(w, now, c) && !Collides(w, minted, spare) ==>
              var cookie := RefreshNow(s, now, c, minted, spare, ttl).0.cookie;
              cookie == (if minted in w.place then spare else minted) && w' == Extended(w, now, cookie, c.sid, ttl)
    ensures Current(w, now, c) && Collides(w, minted, spare) ==>
              w' == w && RefreshNow(s, now, c, minted, spare, ttl) == (Unavailable, s)
    ensures !Current(w, now, c) ==> w' == w && RefreshNow(s, now, c, minted, spare, ttl).1 == s
    ensures !Current(w, now, c) && !Lagging(w, now, c, 1) ==>
              RefreshNow(s, now, c, minted, spare, ttl).0 == Unauthorized
  {
    w' := w;
    ValidatorIsTheChain(s, w, now, c);
    if Current(w, now, c) {
      w' := RotatingNewest(s, w, now, c, minted, spare, ttl);
    } else if 1 <= Lag(w, c) && Lagging(w, now, c, Lag(w, c)) {
      CatchUpIsOneHop(s, w, now, c);
    }
  }

  lemma RotatingNewest(s: Store, w: World, now: nat, c: Claims, minted: Jti, spare: Jti, ttl: nat)
    returns (w': World)
    requires Refines(s, w, now) && GRACE_TTL_SECONDS <= ttl && 0 < ttl
    requires MintedWell(w, now, minted) && MintedWell(w, now, spare) && Current(w, now, c)
    ensures Refines(RefreshNow(s, now, c, minted, spare, ttl).1, w', now)
    ensures Collides(w, minted, spare) ==> w' == w && RefreshNow(s, now, c, minted, spare, ttl) == (Unavailable, s)
    ensures !Collides(w, minted, spare) ==>
              var cookie := if minted in w.place then spare else minted;
              && RefreshNow(s, now, c, minted, spare, ttl).0 == Accepted(cookie)
              && w' == Extended(w, now, cookie, c.sid, ttl) && Current(w', now, c.(jti := cookie))
  {
    w' := w;
    ValidatorIsTheChain(s, w, now, c);
    LastPlace(w, now, c.sid);
    VerdictIsChainVerdict(s, w, now, c.jti, minted, c.sid);
    VerdictIsChainVerdict(s, w, now, c.jti, spare, c.sid);
    assert w.sessions[c.sid].chain[w.place[c.jti].index] == c.jti;
    if !Collides(w, minted, spare) {
      var newJti := if minted in w.place then spare else minted;
      RotateRefines(s, w, now, c.jti, newJti, c.sid, ttl);
      w' := Extended(w, now, newJti, c.sid, ttl);
    }
  }

  // So /verify and /refresh disagree on exactly the tokens two or more rotations behind that are still inside
  // their grace window, although the grace rows lead from each of them to the newest token; and on the newest
  // one when both minted tokens collide.
  lemma EndpointsDisagreeExactly(s: Store, w: World, now: nat, c: Claims, minted: Jti, spare: Jti, ttl: nat)
    requires Refines(s, w, now) && GRACE_TTL_SECONDS <= ttl && 0 < ttl
    requires MintedWell(w, now, minted) && MintedWell(w, now, spare)
    ensures RefreshNow(s, now, c, minted, spare, ttl).0.Accepted? ==> VerifyNow(s, now, c)
    ensures VerifyNow(s, now, c) && !RefreshNow(s, now, c, minted, spare, ttl).0.Accepted?
            <==> (2 <= Lag(w, c) && Lagging(w, now, c, Lag(w, c)))
                 || (Current(w, now, c) && Collides(w, minted, spare))
    ensures 2 <= Lag(w, c) && Lagging(w, now, c, Lag(w, c)) ==>
              Follow(s, now, c.jti, Lag(w, c)) == Some(w.sessions[c.sid].Last())
  {
    VerifyAcceptsExactly(s, w, now, c);
    var _ := RefreshAcceptsExactly(s, w, now, c, minted, spare, ttl);
    if 2 <= Lag(w, c) && Lagging(w, now, c, Lag(w, c)) {
      assert RowsRefine(s, w, now, c.jti);
      assert FamilyRefines(s, w, now, c.sid);
      GraceChainReachesTheLiveToken(s, w, now, c.sid, w.place[c.jti].index);
    }
  }

  // The smallest instance: sign in, refresh twice within the grace window, and present the first cookie
  // again, as a second tab would.  /verify takes it and /refresh answers 401.
  lemma TwoQuickRotationsStrandATab(j0: Jti, j1: Jti, j2: Jti, j3: Jti, j4: Jti, sid: Sid, userId: int, ttl: nat)
    requires j0 != j1 && j0 != j2 && j1 != j2 && j3 !in {j0, j1, j2} && j4 !in {j0, j1, j2}
    requires SECONDS_PER_DAY <= ttl
    ensures var s0 := Issue(Store(map[], map[], map[]), 0, j0, sid, userId, ttl);
            var (a, s1) := RefreshNow(s0, 1000, Claims(j0, sid, userId), j1, j3, ttl);
            var (b, s2) := RefreshNow(s1, 2000, Claims(j1, sid, userId), j2, j3, ttl);
            && a == Accepted(j1) && b == Accepted(j2)
            && VerifyNow(s2, 3000, Claims(j0, sid, userId))
            && RefreshNow(s2, 3000, Claims(j0, sid, userId), j3, j4, ttl) == (Unauthorized, s2)
  {
    var s0 := Issue(Store(map[], map[], map[]), 0, j0, sid, userId, ttl);
    assert Validator(s0, 1000, Claims(j0, sid, userId)) == Rotating(false);
    var s1 := RefreshNow(s0, 1000, Claims(j0, sid, userId), j1, j3, ttl).1;
    assert Validator(s1, 2000, Claims(j1, sid, userId)) == Rotating(false);
    var s2 := RefreshNow(s1, 2000, Claims(j1, sid, userId), j2, j3, ttl).1;
    assert Validator(s2, 3000, Claims(j0, sid, userId)) == ReadingSuccessor(j1);
  }
}
