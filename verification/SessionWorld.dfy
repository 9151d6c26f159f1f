/**
 What the three key families mean: each session is a chain of refresh tokens j0, j1, .., jn, the
 instants at which each was rotated into the next, and a deadline.  `Refines` says that the whole store,
 now and at every later instant, is a function of those chains; the lemmas here show that every write
 batch keeps it so, and that the replies of the rotation script are those of the chain.
 */
module SessionWorld {
  import opened Options
  import opened SessionStore

  // Active: not logged out.  Orphaned: Round A of a logout landed, Round B did not.  Closed: both did.
  datatype Phase = Active | Orphaned | Closed

  datatype Session = Session(userId: int, chain: seq<Jti>, rotatedAt: seq<nat>, deadline: nat, phase: Phase)
  {
    ghost predicate Valid(now: nat) {
      && |chain| == |rotatedAt| + 1
      && (forall k :: 0 <= k < |rotatedAt| ==>
          rotatedAt[k] <= now && Deadline(rotatedAt[k], GRACE_TTL_SECONDS) <= deadline)
      && (forall i, k :: 0 <= i < k < |rotatedAt| ==> rotatedAt[i] <= rotatedAt[k])
    }

    function Last(): Jti
      requires chain != []
    {
      chain[|chain| - 1]
    }
  }

  datatype Place = Place(sid: Sid, index: nat)

  // `place` locates every token ever stored; it makes the chains disjoint and free of repetition.
  datatype World = World(sessions: map<Sid, Session>, place: map<Jti, Place>)

  ghost predicate WellFormed(w: World, now: nat) {
    && (forall s :: s in w.sessions ==> w.sessions[s].Valid(now))
    && (forall s, k :: s in w.sessions && 0 <= k < |w.sessions[s].chain| ==>
          w.sessions[s].chain[k] in w.place && w.place[w.sessions[s].chain[k]] == Place(s, k))
    && (forall j :: j in w.place ==>
          && w.place[j].sid in w.sessions
          && w.place[j].index < |w.sessions[w.place[j].sid].chain|
          && w.sessions[w.place[j].sid].chain[w.place[j].index] == j)
  }

  // ---------- the store as a function of the chains ----------

  function ExpectedPrimary(w: World, t: nat, j: Jti): Option<PrimaryRow> {
    if j !in w.place || w.place[j].sid !in w.sessions then None
    else
      var sess := w.sessions[w.place[j].sid];
      if sess.phase != Closed && w.place[j].index + 1 == |sess.chain| && t < sess.deadline
      then Some(PrimaryRow(sess.userId, w.place[j].sid)) else None
  }

  function ExpectedGrace(w: World, t: nat, j: Jti): Option<GraceRow> {
    if j !in w.place || w.place[j].sid !in w.sessions then None
    else
      var sess, k := w.sessions[w.place[j].sid], w.place[j].index;
      if sess.phase != Closed && k + 1 < |sess.chain| && k < |sess.rotatedAt|
         && t < Deadline(sess.rotatedAt[k], GRACE_TTL_SECONDS)
      then Some(GraceRow(sess.userId, w.place[j].sid, sess.chain[k + 1])) else None
  }

  function ExpectedMembers(w: World, t: nat, s: Sid): Option<set<Jti>> {
    if s in w.sessions && w.sessions[s].phase == Active && t < w.sessions[s].deadline
    then Some(Tokens(w.sessions[s].chain)) else None
  }

  function Tokens(chain: seq<Jti>): set<Jti> {
    set j | j in chain
  }

  ghost predicate Refines(store: Store, w: World, now: nat) {
    && WellFormed(w, now)
    && (forall t, j :: now <= t ==> RowsRefine(store, w, t, j))
    && (forall t, s :: now <= t ==> FamilyRefines(store, w, t, s))
  }

  ghost predicate RowsRefine(store: Store, w: World, t: nat, j: Jti) {
    && Validate(store, t, j) == ExpectedPrimary(w, t, j)
    && Grace(store, t, j) == ExpectedGrace(w, t, j)
  }

  ghost predicate FamilyRefines(store: Store, w: World, t: nat, s: Sid) {
    Members(store, t, s) == ExpectedMembers(w, t, s)
  }

  // ---------- what each step does to the chains ----------

  function Begun(w: World, now: nat, jti: Jti, sid: Sid, userId: int, ttl: nat): World {
    World(w.sessions[sid := Session(userId, [jti], [], Deadline(now, ttl), Active)], w.place[jti := Place(sid, 0)])
  }

  // The same first token stored once more: the batch of a login sent again.
  function Reissued(w: World, now: nat, sid: Sid, ttl: nat): World {
    if sid in w.sessions then w.(sessions := w.sessions[sid := w.sessions[sid].(deadline := Deadline(now, ttl))]) else w
  }

  function Extended(w: World, now: nat, newJti: Jti, sid: Sid, ttl: nat): World {
    if sid !in w.sessions then w else
    var sess := w.sessions[sid];
    var chain, rotatedAt := sess.chain + [newJti], sess.rotatedAt + [now];
    World(w.sessions[sid := sess.(chain := chain, rotatedAt := rotatedAt, deadline := Deadline(now, ttl))],
          w.place[newJti := Place(sid, |sess.chain|)])
  }

  function InPhase(w: World, sid: Sid, phase: Phase): World {
    if sid in w.sessions then w.(sessions := w.sessions[sid := w.sessions[sid].(phase := phase)]) else w
  }

  // Round A orphans the rows of an active session.  When the session has already run out it closes it.
  function AfterRoundA(w: World, now: nat, sid: Sid): World {
    if sid in w.sessions && w.sessions[sid].phase == Active
    then InPhase(w, sid, if now < w.sessions[sid].deadline then Orphaned else Closed) else w
  }

  // The rotation's verdict read off the chain alone.
  ghost function ChainVerdict(w: World, now: nat, oldJti: Jti, newJti: Jti, sid: Sid): RotateReply
    requires WellFormed(w, now)
  {
    if sid !in w.sessions || w.sessions[sid].phase != Active || w.sessions[sid].deadline <= now
       || oldJti !in w.sessions[sid].chain then SessionRevoked
    else if oldJti != w.sessions[sid].Last() then AlreadyRotated
    else if newJti in w.place then JtiCollision
    else RotateOk
  }

  // What minting must provide: a repeated token may only repeat one whose primary row is still live.
  predicate MintedWell(w: World, now: nat, newJti: Jti) {
    newJti in w.place ==> ExpectedPrimary(w, now, newJti).Some?
  }

  // ---------- every batch keeps the store a function of the chains ----------

  lemma EmptyRefines(now: nat)
    ensures Refines(Store(map[], map[], map[]), World(map[], map[]), now)
  {
  }

  lemma TickRefines(store: Store, w: World, now: nat, later: nat)
    requires Refines(store, w, now) && now <= later
    ensures Refines(store, w, later)
  {
    assert WellFormed(w, later);
    forall t, j | later <= t
      ensures RowsRefine(store, w, t, j)
    {
      assert RowsRefine(store, w, t, j);
    }
  }

  lemma IssueRefines(store: Store, w: World, now: nat, jti: Jti, sid: Sid, userId: int, ttl: nat)
    requires Refines(store, w, now)
    requires jti !in w.place && sid !in w.sessions
    ensures Refines(Issue(store, now, jti, sid, userId, ttl), Begun(w, now, jti, sid, userId, ttl), now)
  {
    var store', w' := Issue(store, now, jti, sid, userId, ttl), Begun(w, now, jti, sid, userId, ttl);
    forall t, j | now <= t
      ensures RowsRefine(store', w', t, j)
    {
      assert j in w.place ==> w.place[j].sid != sid;
      assert RowsRefine(store, w, t, j);
      IssueRefinesRows(store, w, now, jti, sid, userId, ttl, t, j);
    }
    assert FamilyRefines(store, w, now, sid);
    forall t, s | now <= t
      ensures FamilyRefines(store', w', t, s)
    {
      assert FamilyRefines(store, w, t, s);
      IssueRefinesFamily(store, w, now, jti, sid, userId, ttl, t, s);
    }
  }

  lemma IssueRefinesFamily(store: Store, w: World, now: nat, jti: Jti, sid: Sid, userId: int, ttl: nat, t: nat, s: Sid)
    requires FamilyRefines(store, w, t, s) && FamilyRefines(store, w, now, sid) && now <= t
    requires sid !in w.sessions
    ensures FamilyRefines(Issue(store, now, jti, sid, userId, ttl), Begun(w, now, jti, sid, userId, ttl), t, s)
  {
    assert Tokens([jti]) == {} + {jti};
  }

  lemma IssueRefinesRows(store: Store, w: World, now: nat, jti: Jti, sid: Sid, userId: int, ttl: nat, t: nat, j: Jti)
    requires RowsRefine(store, w, t, j) && now <= t
    requires jti !in w.place && (j in w.place ==> w.place[j].sid != sid)
    ensures RowsRefine(Issue(store, now, jti, sid, userId, ttl), Begun(w, now, jti, sid, userId, ttl), t, j)
  {
  }

  lemma ReissueRefines(store: Store, w: World, now: nat, jti: Jti, sid: Sid, ttl: nat)
    requires Refines(store, w, now)
    requires sid in w.sessions && w.sessions[sid].phase == Active && w.sessions[sid].chain == [jti]
    ensures Refines(Issue(store, now, jti, sid, w.sessions[sid].userId, ttl), Reissued(w, now, sid, ttl), now)
  {
    var store', w' := Issue(store, now, jti, sid, w.sessions[sid].userId, ttl), Reissued(w, now, sid, ttl);
    assert w.sessions[sid].chain[0] == jti;
    ReissuedWellFormed(w, now, jti, sid, ttl);
    forall t, j | now <= t
      ensures RowsRefine(store', w', t, j)
    {
      assert RowsRefine(store, w, t, j);
      ReissueRefinesRows(store, w, now, jti, sid, ttl, t, j);
    }
    assert FamilyRefines(store, w, now, sid);
    forall t, s | now <= t
      ensures FamilyRefines(store', w', t, s)
    {
      assert FamilyRefines(store, w, t, s);
      ReissueRefinesFamily(store, w, now, jti, sid, ttl, t, s);
    }
  }

  lemma ReissueRefinesFamily(store: Store, w: World, now: nat, jti: Jti, sid: Sid, ttl: nat, t: nat, s: Sid)
    requires FamilyRefines(store, w, t, s) && FamilyRefines(store, w, now, sid) && now <= t
    requires sid in w.sessions && w.sessions[sid].phase == Active && w.sessions[sid].chain == [jti]
    ensures FamilyRefines(Issue(store, now, jti, sid, w.sessions[sid].userId, ttl), Reissued(w, now, sid, ttl), t, s)
  {
    assert Tokens(w.sessions[sid].chain) == {jti} == {jti} + {jti} == {} + {jti};
  }

  lemma ReissuedWellFormed(w: World, now: nat, jti: Jti, sid: Sid, ttl: nat)
    requires WellFormed(w, now) && sid in w.sessions && w.sessions[sid].chain == [jti]
    ensures WellFormed(Reissued(w, now, sid, ttl), now)
    ensures w.sessions[sid].rotatedAt == [] && jti in w.place && w.place[jti] == Place(sid, 0)
    ensures forall j :: j in w.place && w.place[j].sid == sid ==> j == jti
  {
    assert w.sessions[sid].Valid(now) && w.sessions[sid].chain[0] == jti;
  }

  lemma ReissueRefinesRows(store: Store, w: World, now: nat, jti: Jti, sid: Sid, ttl: nat, t: nat, j: Jti)
    requires RowsRefine(store, w, t, j) && now <= t
    requires sid in w.sessions && w.sessions[sid].phase == Active && w.sessions[sid].chain == [jti]
    requires jti in w.place && w.place[jti] == Place(sid, 0) && (j in w.place && w.place[j].sid == sid ==> j == jti)
    ensures RowsRefine(Issue(store, now, jti, sid, w.sessions[sid].userId, ttl), Reissued(w, now, sid, ttl), t, j)
  {
  }

  lemma VerdictIsChainVerdict(store: Store, w: World, now: nat, oldJti: Jti, newJti: Jti, sid: Sid)
    requires Refines(store, w, now)
    requires MintedWell(w, now, newJti)
    ensures RotateVerdict(store, now, oldJti, newJti, sid) == ChainVerdict(w, now, oldJti, newJti, sid)
  {
    assert FamilyRefines(store, w, now, sid);
    assert RowsRefine(store, w, now, oldJti);
    assert RowsRefine(store, w, now, newJti);
  }

  lemma ExtendedWellFormed(w: World, now: nat, newJti: Jti, sid: Sid, ttl: nat)
    requires WellFormed(w, now)
    requires sid in w.sessions && newJti !in w.place
    requires GRACE_TTL_SECONDS <= ttl
    ensures WellFormed(Extended(w, now, newJti, sid, ttl), now)
  {
  }

  lemma RotateRefines(store: Store, w: World, now: nat, oldJti: Jti, newJti: Jti, sid: Sid, ttl: nat)
    requires Refines(store, w, now)
    requires GRACE_TTL_SECONDS <= ttl
    requires RotateVerdict(store, now, oldJti, newJti, sid) == RotateOk
    requires ChainVerdict(w, now, oldJti, newJti, sid) == RotateOk
    ensures Refines(Rotate(store, now, oldJti, newJti, sid, w.sessions[sid].userId, ttl),
            Extended(w, now, newJti, sid, ttl), now)
  {
    var store' := Rotate(store, now, oldJti, newJti, sid, w.sessions[sid].userId, ttl);
    var w' := Extended(w, now, newJti, sid, ttl);
    ExtendedWellFormed(w, now, newJti, sid, ttl);
    forall t, j | now <= t
      ensures RowsRefine(store', w', t, j)
    {
      assert RowsRefine(store, w, t, j);
      PlacesInSession(w, now, sid, j);
      PlacesInSession(w, now, sid, oldJti);
      RotateRefinesRows(store, w, now, oldJti, newJti, sid, ttl, t, j);
    }
    assert FamilyRefines(store, w, now, sid);
    forall t, s | now <= t
      ensures FamilyRefines(store', w', t, s)
    {
      assert FamilyRefines(store, w, t, s);
      RotateRefinesFamily(store, w, now, oldJti, newJti, sid, ttl, t, s);
    }
  }

  // Of a session's tokens only the last has the last place.
  lemma PlacesInSession(w: World, now: nat, sid: Sid, j: Jti)
    requires WellFormed(w, now) && sid in w.sessions
    ensures |w.sessions[sid].chain| == |w.sessions[sid].rotatedAt| + 1
    ensures j == w.sessions[sid].Last() ==> j in w.place && w.place[j] == Place(sid, |w.sessions[sid].rotatedAt|)
    ensures j in w.place && w.place[j].sid == sid && j != w.sessions[sid].Last() ==>
              w.place[j].index + 1 < |w.sessions[sid].chain|
  {
  }

  lemma RotateRefinesFamily(store: Store, w: World, now: nat, oldJti: Jti, newJti: Jti, sid: Sid, ttl: nat, t: nat,
                            s: Sid)
    requires FamilyRefines(store, w, t, s) && FamilyRefines(store, w, now, sid) && now <= t
    requires RotateVerdict(store, now, oldJti, newJti, sid) == RotateOk
    requires sid in w.sessions && w.sessions[sid].phase == Active
    ensures FamilyRefines(Rotate(store, now, oldJti, newJti, sid, w.sessions[sid].userId, ttl),
            Extended(w, now, newJti, sid, ttl), t, s)
  {
    assert Tokens(w.sessions[sid].chain + [newJti]) == Tokens(w.sessions[sid].chain) + {newJti};
  }

  lemma RotateRefinesRows(store: Store, w: World, now: nat, oldJti: Jti, newJti: Jti, sid: Sid, ttl: nat, t: nat,
                          j: Jti)
    requires RowsRefine(store, w, t, j) && now <= t
    requires RotateVerdict(store, now, oldJti, newJti, sid) == RotateOk
    requires sid in w.sessions && w.sessions[sid].phase == Active
    requires |w.sessions[sid].chain| == |w.sessions[sid].rotatedAt| + 1
    requires oldJti in w.place && w.place[oldJti] == Place(sid, |w.sessions[sid].rotatedAt|) && newJti !in w.place
    requires j in w.place && w.place[j].sid == sid && j != oldJti ==> w.place[j].index + 1 < |w.sessions[sid].chain|
    ensures RowsRefine(Rotate(store, now, oldJti, newJti, sid, w.sessions[sid].userId, ttl),
            Extended(w, now, newJti, sid, ttl), t, j)
  {
  }

  lemma InPhaseWellFormed(w: World, now: nat, sid: Sid, phase: Phase)
    requires WellFormed(w, now)
    ensures WellFormed(InPhase(w, sid, phase), now)
  {
  }

  lemma RoundAReadsTheWholeChain(store: Store, w: World, now: nat, sid: Sid)
    requires Refines(store, w, now)
    ensures FamilyExists(store, now, sid) <==>
              sid in w.sessions && w.sessions[sid].phase == Active && now < w.sessions[sid].deadline
    ensures FamilyExists(store, now, sid) ==> Members(store, now, sid).value == Tokens(w.sessions[sid].chain)
  {
    assert FamilyRefines(store, w, now, sid);
  }

  lemma RoundARefines(store: Store, w: World, now: nat, sid: Sid)
    requires Refines(store, w, now)
    ensures Refines(RevokeRoundA(store, sid), AfterRoundA(w, now, sid), now)
  {
    InPhaseWellFormed(w, now, sid, Orphaned);
    InPhaseWellFormed(w, now, sid, Closed);
    forall t, j | now <= t
      ensures RowsRefine(RevokeRoundA(store, sid), AfterRoundA(w, now, sid), t, j)
    {
      assert j in w.place ==> w.sessions[w.place[j].sid].Valid(now);
      assert RowsRefine(store, w, t, j);
      RoundARefinesRows(store, w, now, sid, t, j);
    }
    forall t, s | now <= t
      ensures FamilyRefines(RevokeRoundA(store, sid), AfterRoundA(w, now, sid), t, s)
    {
      assert FamilyRefines(store, w, t, s);
      RoundARefinesFamily(store, w, now, sid, t, s);
    }
  }

  lemma RoundARefinesFamily(store: Store, w: World, now: nat, sid: Sid, t: nat, s: Sid)
    requires FamilyRefines(store, w, t, s) && now <= t
    ensures FamilyRefines(RevokeRoundA(store, sid), AfterRoundA(w, now, sid), t, s)
  {
  }

  lemma RoundARefinesRows(store: Store, w: World, now: nat, sid: Sid, t: nat, j: Jti)
    requires RowsRefine(store, w, t, j) && now <= t
    requires j in w.place && w.place[j].sid in w.sessions ==> w.sessions[w.place[j].sid].Valid(now)
    ensures RowsRefine(RevokeRoundA(store, sid), AfterRoundA(w, now, sid), t, j)
  {
  }

  lemma RoundBRefines(store: Store, w: World, now: nat, sid: Sid)
    requires Refines(store, w, now)
    requires sid in w.sessions && w.sessions[sid].phase == Orphaned
    ensures Refines(RevokeRoundB(store, Tokens(w.sessions[sid].chain)), InPhase(w, sid, Closed), now)
  {
    var store', w' := RevokeRoundB(store, Tokens(w.sessions[sid].chain)), InPhase(w, sid, Closed);
    InPhaseWellFormed(w, now, sid, Closed);
    forall t, j | now <= t
      ensures RowsRefine(store', w', t, j)
    {
      assert RowsRefine(store, w, t, j);
      InChainIffPlaced(w, now, sid, j);
      RoundBRefinesRows(store, w, sid, t, j);
    }
    forall t, s | now <= t
      ensures FamilyRefines(store', w', t, s)
    {
      assert FamilyRefines(store, w, t, s);
      RoundBRefinesFamily(store, w, sid, t, s);
    }
  }

  lemma InChainIffPlaced(w: World, now: nat, sid: Sid, j: Jti)
    requires WellFormed(w, now) && sid in w.sessions
    ensures j in Tokens(w.sessions[sid].chain) <==> j in w.place && w.place[j].sid == sid
  {
  }

  lemma RoundBRefinesRows(store: Store, w: World, sid: Sid, t: nat, j: Jti)
    requires RowsRefine(store, w, t, j) && sid in w.sessions
    requires j in Tokens(w.sessions[sid].chain) <==> j in w.place && w.place[j].sid == sid
    ensures RowsRefine(RevokeRoundB(store, Tokens(w.sessions[sid].chain)), InPhase(w, sid, Closed), t, j)
  {
  }

  lemma RoundBRefinesFamily(store: Store, w: World, sid: Sid, t: nat, s: Sid)
    requires FamilyRefines(store, w, t, s) && sid in w.sessions && w.sessions[sid].phase != Active
    ensures FamilyRefines(RevokeRoundB(store, Tokens(w.sessions[sid].chain)), InPhase(w, sid, Closed), t, s)
  {
  }

  // ---------- the grace chain leads to the live token ----------

  // Follow successors until a token with a primary row is met, at most `hops` times.
  function Follow(store: Store, now: nat, j: Jti, hops: nat): Option<Jti>
    decreases hops
  {
    if Validate(store, now, j).Some? then Some(j)
    else if hops == 0 || Grace(store, now, j).None? then None
    else Follow(store, now, Grace(store, now, j).value.successor, hops - 1)
  }

  lemma OnlyTheLastTokenIsLive(store: Store, w: World, now: nat, sid: Sid)
    requires Refines(store, w, now) && FamilyExists(store, now, sid)
    ensures sid in w.sessions && w.sessions[sid].chain != []
    ensures forall j :: Validate(store, now, j).Some? && Validate(store, now, j).value.sid == sid <==>
              j == w.sessions[sid].Last()
  {
    assert FamilyRefines(store, w, now, sid);
    forall j
      ensures Validate(store, now, j).Some? && Validate(store, now, j).value.sid == sid <==> j == w.sessions[sid].Last()
    {
      assert RowsRefine(store, w, now, j);
      PlacesInSession(w, now, sid, j);
    }
  }

  // While the family is alive every row after a live grace row is live too, and the walk ends, after as
  // many hops as there are later tokens, at the only live primary row of the session.
  lemma {:induction false} GraceChainReachesTheLiveToken(store: Store, w: World, now: nat, sid: Sid, k: nat)
    requires Refines(store, w, now)
    requires FamilyExists(store, now, sid)
    requires sid in w.sessions && k < |w.sessions[sid].rotatedAt|
    requires Grace(store, now, w.sessions[sid].chain[k]).Some?
    ensures var chain := w.sessions[sid].chain;
            && (forall i :: k <= i < |chain| - 1 ==>
                Grace(store, now, chain[i]).Some? && Validate(store, now, chain[i]).None?)
            && Follow(store, now, chain[k], |chain| - 1 - k) == Some(w.sessions[sid].Last())
    decreases |w.sessions[sid].chain| - k
  {
    var sess := w.sessions[sid];
    assert FamilyRefines(store, w, now, sid);
    assert RowsRefine(store, w, now, sess.chain[k]);
    assert RowsRefine(store, w, now, sess.chain[k + 1]);
    assert w.place[sess.chain[k]] == Place(sid, k);
    assert w.place[sess.chain[k + 1]] == Place(sid, k + 1);
    assert w.place[sess.Last()] == Place(sid, |sess.chain| - 1);
    if k + 1 < |sess.rotatedAt| {
      GraceChainReachesTheLiveToken(store, w, now, sid, k + 1);
    }
  }

  // ---------- coverage ----------

  // A live row belongs to a family that is alive now and outlives the row, or to one whose logout has
  // passed Round A and not Round B.
  lemma RowsNeverOutliveTheirFamily(store: Store, w: World, now: nat, j: Jti, t: nat)
    requires Refines(store, w, now) && now <= t
    ensures Validate(store, t, j).Some? ==> Covered(store, w, t, Validate(store, t, j).value.sid, j)
    ensures Grace(store, t, j).Some? ==> Covered(store, w, t, Grace(store, t, j).value.sid, j)
  {
    assert RowsRefine(store, w, t, j);
    if j in w.place {
      assert FamilyRefines(store, w, t, w.place[j].sid);
      assert w.sessions[w.place[j].sid].chain[w.place[j].index] == j;
    }
  }

  ghost predicate Covered(store: Store, w: World, t: nat, sid: Sid, j: Jti) {
    || FamilyMember(store, t, sid, j)
    || (sid in w.sessions && w.sessions[sid].phase == Orphaned && j in w.sessions[sid].chain)
  }
}
