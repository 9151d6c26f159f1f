/**
 The refresh-session keys of backend/app/redis_client.py.

 Three key families make up a session: one primary row per live refresh token, one short-lived grace
 row per rotated-out token, and one set per session family.  `Store` is their content.  `SessionRedis`
 issues the commands of the four write batches one at a time, as the pipelines and the script do, and
 each of its methods is proved against a function from store to store.

 Instants are milliseconds; a batch runs at one instant `now`.  A key is visible strictly before its
 deadline, and every command treats an expired key as an absent one.
 */
module SessionStore {
  import opened Options

  datatype Jti = Jti(text: string)
  datatype Sid = Sid(text: string)

  datatype PrimaryRow = PrimaryRow(userId: int, sid: Sid)
  datatype GraceRow = GraceRow(userId: int, sid: Sid, successor: Jti)

  // A key without a deadline never expires; SADD creates such a key until EXPIRE follows.
  datatype Timed<T> = Timed(value: T, deadline: Option<nat>)

  datatype Store = Store(
    primary: map<Jti, Timed<PrimaryRow>>,
    grace: map<Jti, Timed<GraceRow>>,
    family: map<Sid, Timed<set<Jti>>>)

  datatype RotateReply = RotateOk | SessionRevoked | AlreadyRotated | JtiCollision

  const GRACE_TTL_SECONDS: nat := 30

  // ---------- what a reader of the store sees at one instant ----------

  function Look<K, T>(m: map<K, Timed<T>>, now: nat, k: K): Option<T> {
    if k in m && (m[k].deadline.Some? ==> now < m[k].deadline.value) then Some(m[k].value) else None
  }

  function Validate(s: Store, now: nat, jti: Jti): Option<PrimaryRow> {
    Look(s.primary, now, jti)
  }

  function Grace(s: Store, now: nat, jti: Jti): Option<GraceRow> {
    Look(s.grace, now, jti)
  }

  function Members(s: Store, now: nat, sid: Sid): Option<set<Jti>> {
    Look(s.family, now, sid)
  }

  predicate FamilyExists(s: Store, now: nat, sid: Sid) {
    Members(s, now, sid).Some?
  }

  predicate FamilyMember(s: Store, now: nat, sid: Sid, jti: Jti) {
    Members(s, now, sid).Some? && jti in Members(s, now, sid).value
  }

  // ---------- the write batches, as functions on the store ----------

  function Deadline(now: nat, ttlSeconds: nat): nat {
    now + 1000 * ttlSeconds
  }

  function Issue(s: Store, now: nat, jti: Jti, sid: Sid, userId: int, ttlSeconds: nat): Store {
    var deadline := Some(Deadline(now, ttlSeconds));
    var others := if FamilyExists(s, now, sid) then Members(s, now, sid).value else {};
    s.(primary := s.primary[jti := Timed(PrimaryRow(userId, sid), deadline)],
       family := s.family[sid := Timed(others + {jti}, deadline)])
  }

  function RotateVerdict(s: Store, now: nat, oldJti: Jti, newJti: Jti, sid: Sid): RotateReply {
    if !FamilyMember(s, now, sid, oldJti) then SessionRevoked
    else if Validate(s, now, oldJti).None? then AlreadyRotated
    else if Validate(s, now, newJti).Some? then JtiCollision
    else RotateOk
  }

  function Rotate(s: Store, now: nat, oldJti: Jti, newJti: Jti, sid: Sid, userId: int, ttlSeconds: nat): Store {
    if RotateVerdict(s, now, oldJti, newJti, sid) != RotateOk then s
    else
      var deadline := Some(Deadline(now, ttlSeconds));
      var row := GraceRow(userId, sid, newJti);
      Store(
        s.primary[newJti := Timed(PrimaryRow(userId, sid), deadline)] - {oldJti},
        s.grace[oldJti := Timed(row, Some(Deadline(now, GRACE_TTL_SECONDS)))],
        s.family[sid := Timed(Members(s, now, sid).value + {newJti}, deadline)])
  }

  function RevokeRoundA(s: Store, sid: Sid): Store {
    s.(family := s.family - {sid})
  }

  function RevokeRoundB(s: Store, jtis: set<Jti>): Store {
    s.(primary := s.primary - jtis, grace := s.grace - jtis)
  }

  // ---------- what the batches promise on any store, with no assumption on minted identifiers ----------

  // A reply other than ok wrote nothing; ok needs the presented token to be both a member and live,
  // and it takes that token's own liveness away, so the same rotation cannot win twice.
  lemma RotateConsumesItsToken(s: Store, now: nat, oldJti: Jti, newJti: Jti, sid: Sid, userId: int, ttl: nat,
                               later: nat, secondNew: Jti)
    requires now <= later
    ensures RotateVerdict(s, now, oldJti, newJti, sid) != RotateOk ==>
              Rotate(s, now, oldJti, newJti, sid, userId, ttl) == s
    ensures RotateVerdict(s, now, oldJti, newJti, sid) == RotateOk ==>
              && FamilyMember(s, now, sid, oldJti) && Validate(s, now, oldJti).Some?
              && var s' := Rotate(s, now, oldJti, newJti, sid, userId, ttl);
                 && Validate(s', later, oldJti).None?
                 && RotateVerdict(s', later, oldJti, secondNew, sid) in {SessionRevoked, AlreadyRotated}
  {
  }

  // No live primary row is ever overwritten by a rotation, even when the minted token repeats one.
  lemma RotateOverwritesNothingLive(s: Store, now: nat, oldJti: Jti, newJti: Jti, sid: Sid, userId: int, ttl: nat,
                                    jti: Jti)
    requires Validate(s, now, jti).Some?
    ensures var s' := Rotate(s, now, oldJti, newJti, sid, userId, ttl);
            || Validate(s', now, jti) == Validate(s, now, jti)
            || (jti == oldJti && RotateVerdict(s, now, oldJti, newJti, sid) == RotateOk && Validate(s', now, jti).None?)
  {
  }

  // A fresh issue has no such guard: it keeps every other user's live row exactly when its token is new.
  lemma IssueKeepsLiveRowsIffFresh(s: Store, now: nat, jti: Jti, sid: Sid, userId: int, ttl: nat)
    requires 0 < ttl
    ensures (forall j: Jti | Validate(s, now, j).Some? ::
               Validate(Issue(s, now, jti, sid, userId, ttl), now, j) == Validate(s, now, j))
            <==> (Validate(s, now, jti).Some? ==> Validate(s, now, jti).value == PrimaryRow(userId, sid))
  {
    var s' := Issue(s, now, jti, sid, userId, ttl);
    assert Validate(s', now, jti) == Some(PrimaryRow(userId, sid));
    forall j: Jti | Validate(s, now, j).Some? && j != jti
      ensures Validate(s', now, j) == Validate(s, now, j)
    {
    }
  }

  // What an issue does to any store, at any later instant: its own row and its family live until the same
  // deadline, the family has its old members and the new one, and every other key is as it was.
  lemma IssueWritesExactly(s: Store, now: nat, jti: Jti, sid: Sid, userId: int, ttl: nat, t: nat, j: Jti, other: Sid)
    requires now <= t && 0 < ttl
    ensures var s' := Issue(s, now, jti, sid, userId, ttl);
            && Validate(s', t, j) == (if j != jti then Validate(s, t, j)
                                      else if t < now + 1000 * ttl then Some(PrimaryRow(userId, sid)) else None)
            && Grace(s', t, j) == Grace(s, t, j)
            && (other != sid ==> Members(s', t, other) == Members(s, t, other))
            && (FamilyExists(s', t, sid) <==> t < now + 1000 * ttl)
            && (FamilyExists(s', t, sid) ==>
                (FamilyMember(s', t, sid, j) <==> j == jti || FamilyMember(s, now, sid, j)))
  {
  }

  // What a winning rotation does to any store: the old row is gone and its grace row, which names the new
  // one, lives thirty seconds; the new row and the family live until the same deadline; all else stays.
  lemma RotationWritesExactly(s: Store, now: nat, oldJti: Jti, newJti: Jti, sid: Sid, userId: int, ttl: nat,
                              t: nat, j: Jti, other: Sid)
    requires now <= t && 0 < ttl && RotateVerdict(s, now, oldJti, newJti, sid) == RotateOk
    ensures var s' := Rotate(s, now, oldJti, newJti, sid, userId, ttl);
            && Validate(s', t, j) == (if j == oldJti then None
                                      else if j != newJti then Validate(s, t, j)
                                      else if t < now + 1000 * ttl then Some(PrimaryRow(userId, sid)) else None)
            && Grace(s', t, j) == (if j != oldJti then Grace(s, t, j)
                                   else if t < now + 30000 then Some(GraceRow(userId, sid, newJti)) else None)
            && (other != sid ==> Members(s', t, other) == Members(s, t, other))
            && (FamilyExists(s', t, sid) <==> t < now + 1000 * ttl)
            && (FamilyExists(s', t, sid) ==>
                (FamilyMember(s', t, sid, j) <==> j == newJti || FamilyMember(s, now, sid, j)))
  {
  }

  // ---------- the server, one command at a time ----------

  class SessionRedis {
    var primary: map<Jti, Timed<PrimaryRow>>
    var grace: map<Jti, Timed<GraceRow>>
    var family: map<Sid, Timed<set<Jti>>>

    constructor ()
      ensures Contents() == Store(map[], map[], map[])
    {
      primary, grace, family := map[], map[], map[];
    }

    function Contents(): Store
      reads this
    {
      Store(primary, grace, family)
    }

    method SetPrimary(now: nat, jti: Jti, row: PrimaryRow, ttlSeconds: nat)
      modifies this`primary
      ensures primary == old(primary)[jti := Timed(row, Some(Deadline(now, ttlSeconds)))]
    {
      primary := primary[jti := Timed(row, Some(Deadline(now, ttlSeconds)))];
    }

    method SetPrimaryIfAbsent(now: nat, jti: Jti, row: PrimaryRow, ttlSeconds: nat) returns (written: bool)
      modifies this`primary
      ensures written == Look(old(primary), now, jti).None?
      ensures primary == if written then old(primary)[jti := Timed(row, Some(Deadline(now, ttlSeconds)))]
              else old(primary)
    {
      written := Look(primary, now, jti).None?;
      if written {
        SetPrimary(now, jti, row, ttlSeconds);
      }
    }

    // SADD keeps the deadline of a live set and starts a fresh, undying one otherwise.
    method AddMember(now: nat, sid: Sid, jti: Jti)
      modifies this`family
      ensures sid in family && family == old(family)[sid := family[sid]]
      ensures family[sid].value
              == (if Look(old(family), now, sid).Some? then Look(old(family), now, sid).value else {}) + {jti}
      ensures Look(family, now, sid).Some?
    {
      if Look(family, now, sid).Some? {
        family := family[sid := family[sid].(value := family[sid].value + {jti})];
      } else {
        family := family[sid := Timed({jti}, None)];
      }
    }

    method ExpireFamily(now: nat, sid: Sid, ttlSeconds: nat)
      modifies this`family
      ensures family == if Look(old(family), now, sid).None? then old(family)
                        else old(family)[sid := Timed(old(family)[sid].value, Some(Deadline(now, ttlSeconds)))]
    {
      if Look(family, now, sid).Some? {
        family := family[sid := family[sid].(deadline := Some(Deadline(now, ttlSeconds)))];
      }
    }

    method SessionIssue(now: nat, jti: Jti, sid: Sid, userId: int, ttlSeconds: nat)
      modifies this
      ensures Contents() == Issue(old(Contents()), now, jti, sid, userId, ttlSeconds)
    {
      SetPrimary(now, jti, PrimaryRow(userId, sid), ttlSeconds);
      AddMember(now, sid, jti);
      ExpireFamily(now, sid, ttlSeconds);
    }

    // The rotation script: three guards, each returning before any write, then five commands.
    method RotateScript(now: nat, oldJti: Jti, newJti: Jti, sid: Sid, userId: int, ttlSeconds: nat)
      returns (reply: RotateReply)
      modifies this
      ensures reply == RotateVerdict(old(Contents()), now, oldJti, newJti, sid)
      ensures Contents() == Rotate(old(Contents()), now, oldJti, newJti, sid, userId, ttlSeconds)
    {
      if !FamilyMember(Contents(), now, sid, oldJti) {
        return SessionRevoked;
      }
      if Look(primary, now, oldJti).None? {
        return AlreadyRotated;
      }
      var written := SetPrimaryIfAbsent(now, newJti, PrimaryRow(userId, sid), ttlSeconds);
      if !written {
        return JtiCollision;
      }
      grace := grace[oldJti := Timed(GraceRow(userId, sid, newJti), Some(Deadline(now, GRACE_TTL_SECONDS)))];
      AddMember(now, sid, newJti);
      ExpireFamily(now, sid, ttlSeconds);
      primary := primary - {oldJti};
      return RotateOk;
    }

    // Round A reads the members, then drops the set.
    method ReadAndDropFamily(now: nat, sid: Sid) returns (members: set<Jti>)
      modifies this`family
      ensures Contents() == RevokeRoundA(old(Contents()), sid)
      ensures members == if FamilyExists(old(Contents()), now, sid) then Members(old(Contents()), now, sid).value
              else {}
    {
      members := if Look(family, now, sid).Some? then Look(family, now, sid).value else {};
      family := family - {sid};
    }

    // Round B walks the list Round A returned.
    method DropRows(jtis: seq<Jti>)
      modifies this`primary, this`grace
      ensures Contents() == RevokeRoundB(old(Contents()), set j | j in jtis)
    {
      for i := 0 to |jtis|
        invariant primary == old(primary) - (set j | j in jtis[..i])
        invariant grace == old(grace) - (set j | j in jtis[..i])
        invariant family == old(family)
      {
        primary := primary - {jtis[i]};
        grace := grace - {jtis[i]};
        assert jtis[..i + 1] == jtis[..i] + [jtis[i]];
      }
      assert jtis[..|jtis|] == jtis;
    }
  }

  // ---------- the three families cannot collide in the one Redis keyspace ----------

  datatype Key = PrimaryKey(jti: Jti) | GraceKey(jti: Jti) | FamilyKey(sid: Sid)

  function KeyName(k: Key): string {
    match k
    case PrimaryKey(j) => "auth:session:" + j.text
    case GraceKey(j) => "auth:session:" + "grace:" + j.text
    case FamilyKey(s) => "auth:session:" + "by_sid:" + s.text
  }

  // Minted tokens are URL-safe base64 and minted family names are hexadecimal: neither holds a colon.
  predicate Minted(k: Key) {
    match k
    case PrimaryKey(j) => ':' !in j.text
    case GraceKey(j) => ':' !in j.text
    case FamilyKey(s) => ':' !in s.text
  }

  lemma KeyNamesAreInjective(a: Key, b: Key)
    requires Minted(a) && Minted(b)
    requires KeyName(a) == KeyName(b)
    ensures a == b
  {
    var n := |"auth:session:"|;
    assert KeyName(a)[n..] == KeyName(b)[n..];
    TailName(a);
    TailName(b);
    assert "grace:"[5] == ':' && "by_sid:"[6] == ':';
  }

  lemma TailName(k: Key)
    ensures var tail := KeyName(k)[|"auth:session:"|..];
            match k
            case PrimaryKey(j) => tail == j.text
            case GraceKey(j) => tail == "grace:" + j.text && tail[6..] == j.text && tail[5] == ':' && tail[0] == 'g'
            case FamilyKey(s) => tail == "by_sid:" + s.text && tail[7..] == s.text && tail[6] == ':' && tail[0] == 'b'
  {
  }
}
