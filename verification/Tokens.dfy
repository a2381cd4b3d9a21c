/** Refresh tokens (domains/auth/service.py) with the session part of the retention cleanup
    (domains/retention/service.py): a token is good for one rotation, ever. */
module Tokens {
  import opened Prelude
  import opened Tables

  // SHA-256, taken as a function without collisions.
  type Hash = string -> string

  ghost predicate CollisionFree(hash: Hash) { forall a, b :: hash(a) == hash(b) ==> a == b }

  function WithHash(h: string): UserSession -> bool { (s: UserSession) => s.tokenHash == h }

  predicate IsExpired(expiresAt: int, now: int) { expiresAt < now }

  // ---- the operations on the table ----

  // The sessions table with its id counter.
  datatype Sessions = Sessions(nextId: Id, rows: seq<UserSession>)

  function LoggedIn(s: Sessions, hash: Hash, userId: Id, token: string, now: int, ttl: nat): Sessions {
    Sessions(s.nextId + 1, s.rows + [UserSession(s.nextId, userId, hash(token), now + ttl)])
  }

  function NotId(id: Id): UserSession -> bool { (s: UserSession) => s.id != id }

  function Renewing(id: Id, tokenHash: string, expiresAt: int): UserSession -> UserSession {
    (s: UserSession) => if s.id == id then s.(tokenHash := tokenHash, expiresAt := expiresAt) else s
  }

  // The session a presented token belongs to, joined with its user.
  function Presented(rows: seq<UserSession>, users: seq<User>, hash: Hash, token: string): Option<UserSession> {
    match Find(rows, WithHash(hash(token)))
    case None => None
    case Some(s) => if Find(users, HasUserId(s.userId)).Some? then Some(s) else None
  }

  // A good token is replaced by the new one in place; an expired one costs its session.
  function Rotated(s: Sessions, users: seq<User>, hash: Hash, token: string, renewed: string, now: int, ttl: nat)
    : (Sessions, bool)
  {
    match Presented(s.rows, users, hash, token)
    case None => (s, false)
    case Some(row) =>
      if IsExpired(row.expiresAt, now) then (s.(rows := Filter(s.rows, NotId(row.id))), false)
      else (s.(rows := MapSeq(s.rows, Renewing(row.id, hash(renewed), now + ttl))), true)
  }

  function Unexpired(now: int): UserSession -> bool { (s: UserSession) => s.expiresAt > now }

  // DELETE FROM user_sessions WHERE expires_at <= now leaves these.
  function CleanedUp(s: Sessions, now: int): Sessions { s.(rows := Filter(s.rows, Unexpired(now))) }

  method CreateTokenPair(session: Session, hash: Hash, userId: Id, token: string, now: int, ttl: nat)
    modifies session`nextId, session`sessions
    ensures Sessions(session.nextId, session.sessions) ==
              LoggedIn(Sessions(old(session.nextId), old(session.sessions)), hash, userId, token, now, ttl)
  {
    var id := session.NewId();
    session.sessions := session.sessions + [UserSession(id, userId, hash(token), now + ttl)];
  }

  method RotateRefreshToken(session: Session, hash: Hash, token: string, renewed: string, now: int, ttl: nat)
    returns (pair: Option<string>)
    modifies session`sessions
    ensures var r := Rotated(Sessions(session.nextId, old(session.sessions)), session.users, hash, token, renewed, now, ttl);
            && session.sessions == r.0.rows
            && pair == if r.1 then Some(renewed) else None
  {
    var row := Presented(session.sessions, session.users, hash, token);
    if row.None? {
      return None;
    }
    if IsExpired(row.value.expiresAt, now) {
      session.sessions := Filter(session.sessions, NotId(row.value.id));
      return None;
    }
    session.sessions := MapSeq(session.sessions, Renewing(row.value.id, hash(renewed), now + ttl));
    pair := Some(renewed);
  }

  method CleanupSessions(session: Session, now: int) returns (expired: nat)
    modifies session`sessions
    ensures session.sessions == CleanedUp(Sessions(0, old(session.sessions)), now).rows
    ensures expired == |old(session.sessions)| - |session.sessions|
  {
    var rows := session.sessions;
    session.sessions := Filter(rows, Unexpired(now));
    expired := |rows| - |session.sessions|;
  }

  // ---- histories ----

  // Times are arbitrary and any token may be presented; only minted tokens have to be new.
  datatype Event =
    | Login(userId: Id, token: string, at: int)
    | Rotate(token: string, renewed: string, at: int)
    | Cleanup(at: int)
    | Erase(userId: Id)

  // The table, the tokens handed out so far, and the ones accepted so far in order.
  datatype Auth = Auth(table: Sessions, minted: set<string>, accepted: seq<string>)

  function OfOther(userId: Id): UserSession -> bool { (s: UserSession) => s.userId != userId }

  function Apply(hash: Hash, users: seq<User>, ttl: nat, a: Auth, e: Event): Auth {
    match e
    case Login(userId, token, at) =>
      a.(table := LoggedIn(a.table, hash, userId, token, at, ttl), minted := a.minted + {token})
    case Rotate(token, renewed, at) =>
      var (table, ok) := Rotated(a.table, users, hash, token, renewed, at, ttl);
      if ok then Auth(table, a.minted + {renewed}, a.accepted + [token]) else a.(table := table)
    case Cleanup(at) => a.(table := CleanedUp(a.table, at))
    case Erase(userId) => a.(table := a.table.(rows := Filter(a.table.rows, OfOther(userId))))
  }

  ghost predicate MintsFresh(a: Auth, e: Event) {
    match e
    case Login(_, token, _) => token !in a.minted
    case Rotate(_, renewed, _) => renewed !in a.minted
    case _ => true
  }

  function Run(hash: Hash, users: seq<User>, ttl: nat, a: Auth, events: seq<Event>): Auth
    decreases |events|
  {
    if events == [] then a else Run(hash, users, ttl, Apply(hash, users, ttl, a, events[0]), events[1..])
  }

  ghost predicate AllFresh(hash: Hash, users: seq<User>, ttl: nat, a: Auth, events: seq<Event>)
    decreases |events|
  {
    events != [] ==>
      MintsFresh(a, events[0]) && AllFresh(hash, users, ttl, Apply(hash, users, ttl, a, events[0]), events[1..])
  }

  function SessionId(): UserSession -> Id { (s: UserSession) => s.id }

  function TokenHash(): UserSession -> string { (s: UserSession) => s.tokenHash }

  function Hashes(rows: seq<UserSession>): set<string> { set s | s in rows :: s.tokenHash }

  ghost predicate IsLive(hash: Hash, rows: seq<UserSession>, token: string) { hash(token) in Hashes(rows) }

  // Ids and hashes of sessions are unique.
  ghost predicate TableOk(s: Sessions) {
    && Distinct(s.rows, SessionId()) && Distinct(s.rows, TokenHash())
    && forall row | row in s.rows :: row.id < s.nextId
  }

  // Every session holds the hash of a minted token; no token is both live and already accepted,
  // nor accepted twice.
  ghost predicate AuthOk(hash: Hash, a: Auth) {
    && TableOk(a.table)
    && Hashes(a.table.rows) <= (set token | token in a.minted :: hash(token))
    && (forall token | token in a.accepted :: token in a.minted && !IsLive(hash, a.table.rows, token))
    && AllDifferent(a.accepted)
  }

  lemma LoginOk(hash: Hash, a: Auth, userId: Id, token: string, at: int, ttl: nat)
    requires CollisionFree(hash) && AuthOk(hash, a) && token !in a.minted
    ensures AuthOk(hash, a.(table := LoggedIn(a.table, hash, userId, token, at, ttl), minted := a.minted + {token}))
  {
    var row := UserSession(a.table.nextId, userId, hash(token), at + ttl);
    forall s | s in a.table.rows ensures s.tokenHash != row.tokenHash {
      assert s.tokenHash in Hashes(a.table.rows);
    }
    DistinctAppend(a.table.rows, SessionId(), row);
    DistinctAppend(a.table.rows, TokenHash(), row);
    assert Hashes(a.table.rows + [row]) == Hashes(a.table.rows) + {row.tokenHash};
  }

  lemma FilterOk(hash: Hash, a: Auth, keep: UserSession -> bool)
    requires AuthOk(hash, a)
    ensures AuthOk(hash, a.(table := a.table.(rows := Filter(a.table.rows, keep))))
  {
    DistinctFilter(a.table.rows, keep, SessionId());
    DistinctFilter(a.table.rows, keep, TokenHash());
    assert Hashes(Filter(a.table.rows, keep)) <= Hashes(a.table.rows);
  }

  ghost predicate HashSwapped(s: Sessions, after: Sessions, oldHash: string, newHash: string) {
    && TableOk(after) && |after.rows| == |s.rows| && after == s.(rows := after.rows)
    && Hashes(after.rows) == Hashes(s.rows) - {oldHash} + {newHash}
  }

  // Renewing a session swaps one hash for another, which must be new.
  lemma RenewalSwapsHash(s: Sessions, row: UserSession, tokenHash: string, expiresAt: int)
    requires TableOk(s) && row in s.rows && tokenHash !in Hashes(s.rows)
    ensures HashSwapped(s, s.(rows := MapSeq(s.rows, Renewing(row.id, tokenHash, expiresAt))), row.tokenHash, tokenHash)
  {
    var after := MapSeq(s.rows, Renewing(row.id, tokenHash, expiresAt));
    var k :| 0 <= k < |s.rows| && s.rows[k] == row;
    forall i | 0 <= i < |s.rows| && i != k ensures after[i] == s.rows[i] && s.rows[i].tokenHash != row.tokenHash {
      assert i < k ==> SessionId()(s.rows[i]) != SessionId()(s.rows[k]) && TokenHash()(s.rows[i]) != TokenHash()(s.rows[k]);
      assert k < i ==> SessionId()(s.rows[k]) != SessionId()(s.rows[i]) && TokenHash()(s.rows[k]) != TokenHash()(s.rows[i]);
    }
    assert after == s.rows[k := row.(tokenHash := tokenHash, expiresAt := expiresAt)];
    ReplacedHashes(s.rows, k, after[k]);
    ReplacedDistinct(s, k, after[k]);
  }

  lemma ReplacedHashes(rows: seq<UserSession>, k: nat, row: UserSession)
    requires k < |rows| && forall i | 0 <= i < |rows| && i != k :: rows[i].tokenHash != rows[k].tokenHash
    ensures Hashes(rows[k := row]) == Hashes(rows) - {rows[k].tokenHash} + {row.tokenHash}
  {
    var after := rows[k := row];
    forall h | h in Hashes(rows) - {rows[k].tokenHash} + {row.tokenHash} ensures h in Hashes(after) {
      if h == row.tokenHash {
        assert after[k] in after;
      } else {
        var s :| s in rows && s.tokenHash == h;
        var i :| 0 <= i < |rows| && rows[i] == s;
        assert after[i] in after;
      }
    }
    forall h | h in Hashes(after) ensures h in Hashes(rows) - {rows[k].tokenHash} + {row.tokenHash} {
      var s :| s in after && s.tokenHash == h;
      var i :| 0 <= i < |after| && after[i] == s;
      assert rows[i] in rows;
    }
  }

  lemma ReplacedDistinct(s: Sessions, k: nat, row: UserSession)
    requires TableOk(s) && k < |s.rows| && row.id == s.rows[k].id && row.tokenHash !in Hashes(s.rows)
    ensures TableOk(s.(rows := s.rows[k := row]))
  {
    var after := s.rows[k := row];
    forall i, j | 0 <= i < j < |after|
      ensures SessionId()(after[i]) != SessionId()(after[j]) && TokenHash()(after[i]) != TokenHash()(after[j])
    {
      assert SessionId()(s.rows[i]) != SessionId()(s.rows[j]) && TokenHash()(s.rows[i]) != TokenHash()(s.rows[j]);
      assert s.rows[i].tokenHash in Hashes(s.rows) && s.rows[j].tokenHash in Hashes(s.rows);
    }
    forall x | x in after ensures x.id < s.nextId {
      var i :| 0 <= i < |after| && after[i] == x;
      assert s.rows[i] in s.rows;
    }
  }

  lemma RotatedRow(s: Sessions, users: seq<User>, hash: Hash, token: string, renewed: string, now: int, ttl: nat,
                   after: Sessions)
    returns (row: UserSession)
    requires Rotated(s, users, hash, token, renewed, now, ttl) == (after, true)
    ensures row in s.rows && row.tokenHash == hash(token)
    ensures after == s.(rows := MapSeq(s.rows, Renewing(row.id, hash(renewed), now + ttl)))
  {
    row := Presented(s.rows, users, hash, token).value;
  }

  lemma RotationSwapsHash(s: Sessions, users: seq<User>, hash: Hash, token: string, renewed: string, now: int, ttl: nat,
                          after: Sessions)
    requires TableOk(s) && hash(renewed) !in Hashes(s.rows)
    requires Rotated(s, users, hash, token, renewed, now, ttl) == (after, true)
    ensures IsLive(hash, s.rows, token)
    ensures HashSwapped(s, after, hash(token), hash(renewed))
  {
    var row := RotatedRow(s, users, hash, token, renewed, now, ttl, after);
    SwapOfRow(s, row, hash(renewed), now + ttl, after);
  }

  lemma SwapOfRow(s: Sessions, row: UserSession, tokenHash: string, expiresAt: int, after: Sessions)
    requires TableOk(s) && row in s.rows && tokenHash !in Hashes(s.rows)
    requires after == s.(rows := MapSeq(s.rows, Renewing(row.id, tokenHash, expiresAt)))
    ensures row.tokenHash in Hashes(s.rows) && HashSwapped(s, after, row.tokenHash, tokenHash)
  {
    RenewalSwapsHash(s, row, tokenHash, expiresAt);
  }

  lemma NewHash(hash: Hash, a: Auth, renewed: string)
    requires CollisionFree(hash) && AuthOk(hash, a) && renewed !in a.minted
    ensures hash(renewed) !in Hashes(a.table.rows)
  {}

  lemma RefusedOk(hash: Hash, users: seq<User>, a: Auth, token: string, renewed: string, at: int, ttl: nat)
    requires AuthOk(hash, a) && !Rotated(a.table, users, hash, token, renewed, at, ttl).1
    ensures AuthOk(hash, a.(table := Rotated(a.table, users, hash, token, renewed, at, ttl).0))
  {
    match Presented(a.table.rows, users, hash, token)
    case None =>
    case Some(row) => FilterOk(hash, a, NotId(row.id));
  }

  lemma RotateOk(hash: Hash, users: seq<User>, a: Auth, token: string, renewed: string, at: int, ttl: nat)
    requires CollisionFree(hash) && AuthOk(hash, a) && renewed !in a.minted
    ensures var (table, ok) := Rotated(a.table, users, hash, token, renewed, at, ttl);
            && (ok ==> AuthOk(hash, Auth(table, a.minted + {renewed}, a.accepted + [token])))
            && (!ok ==> AuthOk(hash, a.(table := table)))
  {
    var (table, ok) := Rotated(a.table, users, hash, token, renewed, at, ttl);
    if ok {
      NewHash(hash, a, renewed);
      RotationSwapsHash(a.table, users, hash, token, renewed, at, ttl, table);
      AcceptedOk(hash, a, table.rows, token, renewed);
    } else {
      RefusedOk(hash, users, a, token, renewed, at, ttl);
    }
  }

  lemma AcceptedOk(hash: Hash, a: Auth, after: seq<UserSession>, token: string, renewed: string)
    requires CollisionFree(hash) && AuthOk(hash, a) && renewed !in a.minted
    requires IsLive(hash, a.table.rows, token) && TableOk(a.table.(rows := after))
    requires Hashes(after) == Hashes(a.table.rows) - {hash(token)} + {hash(renewed)}
    ensures AuthOk(hash, Auth(a.table.(rows := after), a.minted + {renewed}, a.accepted + [token]))
  {
    assert token in a.minted by {
      var t :| t in a.minted && hash(t) == hash(token);
    }
    forall t | t in a.accepted + [token] ensures t in a.minted && !IsLive(hash, after, t) {}
  }

  lemma EventOk(hash: Hash, users: seq<User>, ttl: nat, a: Auth, e: Event)
    requires CollisionFree(hash) && AuthOk(hash, a) && MintsFresh(a, e)
    ensures AuthOk(hash, Apply(hash, users, ttl, a, e))
  {
    match e
    case Login(userId, token, at) => LoginOk(hash, a, userId, token, at, ttl);
    case Rotate(token, renewed, at) => RotateOk(hash, users, a, token, renewed, at, ttl);
    case Cleanup(at) => FilterOk(hash, a, Unexpired(at));
    case Erase(userId) => FilterOk(hash, a, OfOther(userId));
  }

  lemma {:induction false} RunOk(hash: Hash, users: seq<User>, ttl: nat, a: Auth, events: seq<Event>)
    requires CollisionFree(hash) && AuthOk(hash, a) && AllFresh(hash, users, ttl, a, events)
    ensures AuthOk(hash, Run(hash, users, ttl, a, events))
    decreases |events|
  {
    if events != [] {
      EventOk(hash, users, ttl, a, events[0]);
      RunOk(hash, users, ttl, Apply(hash, users, ttl, a, events[0]), events[1..]);
    }
  }

  const START := Auth(Sessions(0, []), {}, [])

  // Over any history of logins, rotations, cleanups and account erasures no token is accepted
  // twice.
  lemma TokensAreSingleUse(hash: Hash, users: seq<User>, ttl: nat, events: seq<Event>)
    requires CollisionFree(hash) && AllFresh(hash, users, ttl, START, events)
    ensures AllDifferent(Run(hash, users, ttl, START, events).accepted)
  {
    RunOk(hash, users, ttl, START, events);
  }

  // In every such history sessions and live minted tokens correspond one to one.
  lemma SessionsMatchTokens(hash: Hash, users: seq<User>, ttl: nat, events: seq<Event>)
    requires CollisionFree(hash) && AllFresh(hash, users, ttl, START, events)
    ensures var a := Run(hash, users, ttl, START, events);
            && (forall s | s in a.table.rows :: exists token :: token in a.minted && hash(token) == s.tokenHash)
            && (forall s, x, y | s in a.table.rows && hash(x) == s.tokenHash && hash(y) == s.tokenHash :: x == y)
            && (forall token, s, r | s in a.table.rows && r in a.table.rows
                                     && s.tokenHash == hash(token) && r.tokenHash == hash(token) :: s == r)
  {
    RunOk(hash, users, ttl, START, events);
    var a := Run(hash, users, ttl, START, events);
    forall s | s in a.table.rows ensures exists token :: token in a.minted && hash(token) == s.tokenHash {
      assert s.tokenHash in Hashes(a.table.rows);
    }
    forall token, s, r | s in a.table.rows && r in a.table.rows && s.tokenHash == hash(token) && r.tokenHash == hash(token)
      ensures s == r
    {
      SameKeySameRow(a.table.rows, TokenHash(), s, r);
    }
  }

  // ---- one rotation, and the cleanup ----

  // A rotation succeeds exactly for the token of an unexpired session of an existing user; then
  // the number of sessions is unchanged, the old token is dead and the new one live.
  lemma RotationSucceedsIff(s: Sessions, users: seq<User>, hash: Hash, token: string, renewed: string, now: int, ttl: nat)
    requires CollisionFree(hash) && TableOk(s) && hash(renewed) !in Hashes(s.rows)
    ensures var (after, ok) := Rotated(s, users, hash, token, renewed, now, ttl);
            && (ok <==> exists row :: row in s.rows && row.tokenHash == hash(token) && row.expiresAt >= now
                                      && Find(users, HasUserId(row.userId)).Some?)
            && (ok ==> |after.rows| == |s.rows| && TableOk(after)
                       && !IsLive(hash, after.rows, token) && IsLive(hash, after.rows, renewed))
  {
    var (after, ok) := Rotated(s, users, hash, token, renewed, now, ttl);
    if ok {
      RotationSwapsHash(s, users, hash, token, renewed, now, ttl, after);
    }
    forall row | row in s.rows && row.tokenHash == hash(token)
      ensures Find(s.rows, WithHash(hash(token))) == Some(row)
    {
      FoundIsTheRow(s.rows, hash(token), row);
    }
  }

  lemma FoundIsTheRow(rows: seq<UserSession>, h: string, row: UserSession)
    requires Distinct(rows, TokenHash()) && row in rows && row.tokenHash == h
    ensures Find(rows, WithHash(h)) == Some(row)
  {
    assert WithHash(h)(row);
    SameKeySameRow(rows, TokenHash(), row, Find(rows, WithHash(h)).value);
  }

  // A rotation touches no session but the one of the presented token: an unexpired one is renewed in
  // place, an expired one goes, and a token that is unknown or whose user is gone changes nothing.
  lemma RotationTouchesOne(s: Sessions, users: seq<User>, hash: Hash, token: string, renewed: string, now: int, ttl: nat)
    requires TableOk(s) && hash(renewed) !in Hashes(s.rows)
    ensures var (after, ok) := Rotated(s, users, hash, token, renewed, now, ttl);
            && after.nextId == s.nextId
            && (forall row | row in s.rows && row.tokenHash != hash(token) :: row in after.rows)
            && (forall row | row in s.rows && row.tokenHash == hash(token) ::
                  row in after.rows <==> !exists u :: u in users && u.id == row.userId)
            && (forall x | x in after.rows && x !in s.rows ::
                  ok && x.tokenHash == hash(renewed) && x.expiresAt == now + ttl
                  && exists row :: row in s.rows && row.tokenHash == hash(token) && row.id == x.id && row.userId == x.userId)
  {
    forall row | row in s.rows && row.tokenHash == hash(token)
      ensures Presented(s.rows, users, hash, token) ==
                if exists u :: u in users && u.id == row.userId then Some(row) else None
    {
      PresentedIff(s, users, hash, token, row);
    }
    match Presented(s.rows, users, hash, token)
    case None =>
    case Some(row) =>
      assert Find(users, HasUserId(row.userId)).Some?;
      if IsExpired(row.expiresAt, now) {
        OthersStay(s, row);
      } else {
        RenewalTouchesOne(s, row, hash(renewed), now + ttl);
      }
  }

  lemma OthersStay(s: Sessions, row: UserSession)
    requires TableOk(s) && row in s.rows
    ensures forall x :: x in Filter(s.rows, NotId(row.id)) <==> x in s.rows && x.tokenHash != row.tokenHash
  {
    forall x | x in s.rows ensures x.id != row.id <==> x.tokenHash != row.tokenHash {
      if x.id == row.id { SameKeySameRow(s.rows, SessionId(), x, row); }
      if x.tokenHash == row.tokenHash { SameKeySameRow(s.rows, TokenHash(), x, row); }
    }
  }

  lemma RenewalTouchesOne(s: Sessions, row: UserSession, tokenHash: string, expiresAt: int)
    requires TableOk(s) && row in s.rows && tokenHash !in Hashes(s.rows)
    ensures var after := MapSeq(s.rows, Renewing(row.id, tokenHash, expiresAt));
            && row !in after
            && (forall x | x in s.rows && x.tokenHash != row.tokenHash :: x in after)
            && (forall x | x in after && x !in s.rows :: x == row.(tokenHash := tokenHash, expiresAt := expiresAt))
  {
    var after := MapSeq(s.rows, Renewing(row.id, tokenHash, expiresAt));
    forall x | x in s.rows ensures x.id == row.id <==> x == row {
      if x.id == row.id { SameKeySameRow(s.rows, SessionId(), x, row); }
    }
    forall x | x in s.rows && x.tokenHash != row.tokenHash ensures x in after {
      var i :| 0 <= i < |s.rows| && s.rows[i] == x;
      assert after[i] == x;
    }
    forall x | x in after ensures x != row && (x in s.rows || x == row.(tokenHash := tokenHash, expiresAt := expiresAt)) {
      var i :| 0 <= i < |after| && after[i] == x;
      assert s.rows[i] in s.rows;
      assert row.tokenHash in Hashes(s.rows);
    }
  }

  lemma PresentedIff(s: Sessions, users: seq<User>, hash: Hash, token: string, row: UserSession)
    requires TableOk(s) && row in s.rows && row.tokenHash == hash(token)
    ensures Presented(s.rows, users, hash, token) ==
              if exists u :: u in users && u.id == row.userId then Some(row) else None
  {
    FoundIsTheRow(s.rows, hash(token), row);
    forall u | u in users && u.id == row.userId ensures Find(users, HasUserId(row.userId)).Some? {
      assert HasUserId(row.userId)(u);
    }
  }

  // A token handed out at a login is good for its lifetime to the last instant, and no longer.
  lemma NewTokenLives(s: Sessions, users: seq<User>, hash: Hash, userId: Id, token: string, now: int, ttl: nat,
                      renewed: string, later: int, nextTtl: nat)
    requires TableOk(s) && hash(token) !in Hashes(s.rows)
    ensures Rotated(LoggedIn(s, hash, userId, token, now, ttl), users, hash, token, renewed, later, nextTtl).1 <==>
              later <= now + ttl && exists u :: u in users && u.id == userId
  {
    var row := UserSession(s.nextId, userId, hash(token), now + ttl);
    var after := LoggedIn(s, hash, userId, token, now, ttl);
    forall x | x in s.rows ensures x.tokenHash != row.tokenHash {
      assert x.tokenHash in Hashes(s.rows);
    }
    DistinctAppend(s.rows, SessionId(), row);
    DistinctAppend(s.rows, TokenHash(), row);
    assert row in after.rows;
    PresentedIff(after, users, hash, token, row);
  }

  // So is one handed out at a rotation, and the session stays the user's.
  lemma RenewedTokenLives(s: Sessions, users: seq<User>, hash: Hash, token: string, renewed: string, now: int, ttl: nat,
                          next: string, later: int, nextTtl: nat, after: Sessions)
    requires TableOk(s) && hash(renewed) !in Hashes(s.rows)
    requires Rotated(s, users, hash, token, renewed, now, ttl) == (after, true)
    ensures Rotated(after, users, hash, renewed, next, later, nextTtl).1 <==> later <= now + ttl
    ensures exists was, row :: was in s.rows && row in after.rows && was.id == row.id && was.userId == row.userId
                               && was.tokenHash == hash(token) && row.tokenHash == hash(renewed)
  {
    var was := RotatedRow(s, users, hash, token, renewed, now, ttl, after);
    RotationSwapsHash(s, users, hash, token, renewed, now, ttl, after);
    var i :| 0 <= i < |s.rows| && s.rows[i] == was;
    var row := was.(tokenHash := hash(renewed), expiresAt := now + ttl);
    assert after.rows[i] == row;
    PresentedIff(after, users, hash, renewed, row);
    assert Find(users, HasUserId(was.userId)).Some?;
  }

  // A session is removed by a cleanup exactly if no rotation at a strictly later time accepts it.
  // At the very moment it expires the two disagree: rotation still accepts what cleanup removes.
  lemma CleanupRemovesIffDead(s: UserSession, now: int)
    ensures !Unexpired(now)(s) <==> forall later | later > now :: IsExpired(s.expiresAt, later)
    ensures s.expiresAt == now ==> !Unexpired(now)(s) && !IsExpired(s.expiresAt, now)
  {
    if Unexpired(now)(s) {
      assert !IsExpired(s.expiresAt, s.expiresAt);
    }
  }

  // No later rotation can tell whether a cleanup has run.
  lemma CleanupIsInvisible(s: Sessions, users: seq<User>, hash: Hash, token: string, renewed: string,
                           now: int, later: int, ttl: nat)
    requires TableOk(s) && later > now
    ensures Rotated(CleanedUp(s, now), users, hash, token, renewed, later, ttl).1 ==
              Rotated(s, users, hash, token, renewed, later, ttl).1
  {
    var kept := Filter(s.rows, Unexpired(now));
    match Find(s.rows, WithHash(hash(token)))
    case None =>
      assert forall row | row in kept :: !WithHash(hash(token))(row);
    case Some(row) =>
      if Unexpired(now)(row) {
        assert row in kept && WithHash(hash(token))(row);
        SameKeySameRow(s.rows, TokenHash(), row, Find(kept, WithHash(hash(token))).value);
      } else {
        forall other | other in kept ensures !WithHash(hash(token))(other) {
          if other.tokenHash == row.tokenHash { SameKeySameRow(s.rows, TokenHash(), row, other); }
        }
      }
  }
}
