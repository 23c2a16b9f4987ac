/** Login sessions: rows that expire by a comparison of timestamps as text. */
module Sessions {
  import opened Wrappers
  import opened Timestamps
  import opened Text
  import opened Schema

  datatype Session = Session(
    id: Id, userId: Id, hash: Digest, createdAt: Time, expiresAt: Time, lastUsedAt: Option<Time>)

  type Rows = map<Id, Session>

  /** `expires_at > now`, as SQL compares it. */
  predicate Live(s: Session, now: Time) {
    Lt(Stamp(now), Stamp(s.expiresAt))
  }

  /** PRIMARY KEY, UNIQUE(token_hash) and the reference to admin_users. */
  ghost predicate RowsOk(rows: Rows, users: set<Id>) {
    && (forall k :: k in rows ==> rows[k].id == k && rows[k].userId in users)
    && (forall a, b :: a in rows && b in rows && rows[a].hash == rows[b].hash ==> a == b)
  }

  /** What a bearer token is worth at a moment. */
  ghost predicate Answers(rows: Rows, hash: Digest, now: Time, s: Session) {
    s.id in rows && rows[s.id] == s && s.hash == hash && Live(s, now)
  }

  predicate Known(rows: Rows, hash: Digest) {
    exists k :: k in rows && rows[k].hash == hash
  }

  class SessionStore {
    var rows: Rows
    var users: set<Id>

    ghost predicate Valid()
      reads this
    {
      RowsOk(rows, users)
    }

    constructor (users: set<Id>)
      ensures Valid() && rows == map[] && this.users == users
    {
      rows, this.users := map[], users;
    }

    method CreateSession(s: Session) returns (outcome: Outcome)
      requires Valid()
      modifies `rows
      ensures Valid()
      ensures outcome == UniqueViolation <==> s.id in old(rows) || Known(old(rows), s.hash)
      ensures outcome == ForeignKeyViolation ==> s.userId !in users
      ensures outcome == Done <==>
        rows == old(rows)[s.id := s.(lastUsedAt := None)] && s.userId in users && outcome != UniqueViolation
      ensures outcome != Done ==> rows == old(rows)
    {
      if s.id in rows || Known(rows, s.hash) {
        return UniqueViolation;
      }
      if s.userId !in users {
        return ForeignKeyViolation;
      }
      rows := rows[s.id := s.(lastUsedAt := None)];
      return Done;
    }

    /** None when there is no such session or it has expired. */
    method GetActiveSessionByHash(hash: Digest, now: Time) returns (found: Option<Session>)
      requires Valid()
      ensures found.Some? ==> Answers(rows, hash, now, found.value)
      ensures forall s :: Answers(rows, hash, now, s) ==> found == Some(s)
    {
      if k :| k in rows && rows[k].hash == hash && Live(rows[k], now) {
        found := Some(rows[k]);
      } else {
        found := None;
      }
    }

    method TouchSession(id: Id, at: Time)
      requires Valid()
      modifies `rows
      ensures Valid() && rows.Keys == old(rows.Keys)
      ensures forall k :: k in rows ==>
        rows[k] == if k == id then old(rows)[k].(lastUsedAt := Some(at)) else old(rows)[k]
    {
      if id in rows {
        rows := rows[id := rows[id].(lastUsedAt := Some(at))];
      }
    }

    /** Logging out: the token is worth nothing any more, and every other token what it was. */
    method DeleteSessionByHash(hash: Digest) returns (outcome: Outcome)
      requires Valid()
      modifies `rows
      ensures Valid()
      ensures outcome == if Known(old(rows), hash) then Done else NotFound
      ensures outcome != Done ==> rows == old(rows)
      ensures !Known(rows, hash) && forall at, s :: !Answers(rows, hash, at, s)
      ensures forall other, at, s :: other != hash ==>
        (Answers(rows, other, at, s) <==> Answers(old(rows), other, at, s))
      ensures forall k :: k in rows <==> k in old(rows) && old(rows)[k].hash != hash
      ensures forall k :: k in rows ==> rows[k] == old(rows)[k]
    {
      outcome := if Known(rows, hash) then Done else NotFound;
      ghost var before := rows;
      rows := map k | k in rows && rows[k].hash != hash :: rows[k];
      assert outcome != Done ==> rows == before;
    }

    /** Removes exactly the sessions that are not live now. */
    method DeleteExpiredSessions(now: Time) returns (n: nat)
      requires Valid()
      modifies `rows
      ensures Valid() && rows == Kept(old(rows), now) && n == |old(rows.Keys) - rows.Keys|
    {
      var gone := set k | k in rows && Expired(rows[k], now);
      KeptIsTheRest(rows, gone, now);
      n := |gone|;
      rows := rows - gone;
    }
  }

  /** `expires_at <= now` */
  predicate Expired(s: Session, now: Time) {
    Le(Stamp(s.expiresAt), Stamp(now))
  }

  function Kept(rows: Rows, now: Time): Rows {
    map k | k in rows && Live(rows[k], now) :: rows[k]
  }

  lemma KeptIsTheRest(rows: Rows, gone: set<Id>, now: Time)
    requires forall k :: k in gone <==> k in rows && Expired(rows[k], now)
    ensures rows - gone == Kept(rows, now) && rows.Keys - Kept(rows, now).Keys == gone
  {
    forall s: Session ensures Expired(s, now) <==> !Live(s, now) {
    }
  }

  // ---------------- Expiry is right to within a second ----------------

  /** A session is accepted less than a second too long and refused less than a second too soon; and not
  at all wrongly unless the two times print alike within one second. */
  lemma ExpiryWithinOneSecond(s: Session, now: Time)
    ensures Live(s, now) ==> Instant(now) < Instant(s.expiresAt) + NANOS
    ensures !Live(s, now) ==> Instant(s.expiresAt) < Instant(now) + NANOS
    ensures !Misordered(now, s.expiresAt) ==> (Live(s, now) <==> Instant(now) < Instant(s.expiresAt))
  {
    CutoffWithinOneSecond(now, s.expiresAt);
    CutoffWithinOneSecond(s.expiresAt, now);
    TextOrderIsTimeOrder(now, s.expiresAt);
  }

  /** A sweep takes away a session that a later request would still have got only if the sweep, the request
  and the expiry all fall into one second. */
  lemma SweepIsInvisible(rows: Rows, hash: Digest, swept: Time, now: Time, s: Session)
    requires Instant(swept) <= Instant(now)
    ensures var left := Kept(rows, swept);
      && (Answers(left, hash, now, s) ==> Answers(rows, hash, now, s))
      && (Answers(rows, hash, now, s) && !Answers(left, hash, now, s) ==>
            Seconds(swept) == Seconds(now) == Seconds(s.expiresAt) && Misordered(swept, now))
  {
    if Answers(rows, hash, now, s) && !Live(s, swept) {
      OneSecond(s, swept, now);
    }
  }

  lemma OneSecond(s: Session, swept: Time, now: Time)
    requires Instant(swept) <= Instant(now) && Live(s, now) && !Live(s, swept)
    ensures Seconds(swept) == Seconds(now) == Seconds(s.expiresAt) && Misordered(swept, now)
  {
    StampOrderBySecond(now, s.expiresAt);
    StampOrderBySecond(swept, s.expiresAt);
    StampOrderBySecond(s.expiresAt, swept);
    LtTotal(Stamp(swept), Stamp(s.expiresAt));
    if Le(Stamp(swept), Stamp(now)) {
      assert Le(Stamp(s.expiresAt), Stamp(swept));
      LeTransitive(Stamp(s.expiresAt), Stamp(swept), Stamp(now));
    }
    TextOrderIsTimeOrder(swept, now);
  }
}
