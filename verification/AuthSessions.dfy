/**
  Sign-in sessions: minting token pairs, storing refresh tokens, rotating them
  and revoking them. Clock readings are nanoseconds since 1 January 1970 UTC.
 */
module AuthSessions {
  import opened Wrappers

  const SECOND: nat := 1_000_000_000
  const MINUTE: nat := 60 * SECOND
  const HOUR: nat := 60 * MINUTE
  const ACCESS_TTL: nat := 15 * MINUTE
  const REFRESH_TTL: nat := 8 * HOUR
  const IDLE_WINDOW: nat := 15 * MINUTE

  // The reading that stands for "no time": midnight, 1 January of year 1.
  const ZERO_TIME: int := -62_135_596_800 * SECOND

  // The start of the second a reading falls in.
  function Floor(t: int): int {
    t - t % SECOND
  }

  // A signed refresh token; its JWT times are whole seconds.
  datatype RefreshToken = RefreshToken(tokenId: Uuid, userId: Uuid, sessionCreatedAt: int, notBefore: int, expiresAt: int)

  type Hash = nat
  type Hasher = RefreshToken -> Hash

  // A stored refresh token; revoked when revoked_at is set.
  datatype RefreshRow = RefreshRow(
    userId: Uuid,
    tokenHash: Hash,
    revoked: bool,
    replacedBy: Option<Uuid>,
    expiresAt: int,
    idleExpiresAt: int,
    absoluteExpiresAt: int)

  type Rows = map<Uuid, RefreshRow>

  datatype Issued = Issued(
    accessExpiresAt: int,
    token: RefreshToken,
    refreshExpiresAt: int,
    sessionCreatedAt: int)

  datatype Account = Missing | Disabled | Active

  // The clock as one refresh reads it: parsing the token, checking its row,
  // issuing the new pair and storing it.
  datatype Readings = Readings(parsed: int, checked: int, issued: int, stored: int)

  datatype Outcome =
    | InvalidCredentials
    | SessionIdleExpired
    | SessionAbsoluteExpired
    | AccountDisabled
    | LimitReached
    | StoreFailed
    | Granted(tokens: Issued)

  // ---- Tokens -------------------------------------------------------------------

  function IssueTokens(userId: Uuid, tokenId: Uuid, sessionCreatedAt: int, now: int): Option<Issued> {
    var created := if sessionCreatedAt == ZERO_TIME then now else sessionCreatedAt;
    var refreshExp := created + REFRESH_TTL;
    if refreshExp < now then None
    else
      var token := RefreshToken(tokenId, userId, created / SECOND, Floor(now), Floor(refreshExp));
      Some(Issued(now + ACCESS_TTL, token, refreshExp, created))
  }

  // `genuine`: the signature, issuer and audience are right.
  predicate Parses(token: RefreshToken, genuine: bool, now: int) {
    genuine && token.notBefore <= now < token.expiresAt
  }

  function StoredRow(hash: Hasher, t: Issued, now: int): RefreshRow {
    RefreshRow(t.token.userId, hash(t.token), false, None, t.refreshExpiresAt, now + IDLE_WINDOW,
               t.sessionCreatedAt + REFRESH_TTL)
  }

  function RevokedRow(row: RefreshRow): RefreshRow {
    row.(revoked := true)
  }

  // ---- Operations ---------------------------------------------------------------

  // A fresh sign-in at `issuedAt`, stored at `storedAt`; `commits` says whether
  // the database accepts the transaction.
  function SignedIn(hash: Hasher, rows: Rows, userId: Uuid, newId: Uuid, issuedAt: int, storedAt: int, commits: bool):
    (Rows, Outcome)
  {
    match IssueTokens(userId, newId, ZERO_TIME, issuedAt)
    case None => (rows, LimitReached)
    case Some(t) =>
      if newId in rows || !commits then (rows, StoreFailed)
      else (rows[newId := StoredRow(hash, t, storedAt)], Granted(t))
  }

  // Why a stored token may not be used, if it may not.
  function Refusal(row: RefreshRow, now: int): Option<Outcome> {
    if row.revoked then Some(InvalidCredentials)
    else if row.idleExpiresAt < now then Some(SessionIdleExpired)
    else if row.absoluteExpiresAt < now || row.expiresAt < now then Some(SessionAbsoluteExpired)
    else None
  }

  // The session start carried into the next token: the claim, or for the zero
  // time the stored absolute limit less eight hours.
  function CarriedStart(token: RefreshToken, row: RefreshRow): int {
    if token.sessionCreatedAt * SECOND == ZERO_TIME then row.absoluteExpiresAt - REFRESH_TTL
    else token.sessionCreatedAt * SECOND
  }

  function Rotated(hash: Hasher, rows: Rows, id: Uuid, t: Issued, now: int): Rows
    requires id in rows
  {
    rows[id := rows[id].(revoked := true, replacedBy := Some(t.token.tokenId))][t.token.tokenId := StoredRow(hash, t, now)]
  }

  function Refreshed(hash: Hasher, rows: Rows, token: RefreshToken, genuine: bool, account: Account, newId: Uuid,
                     at: Readings, commits: bool): (Rows, Outcome)
  {
    if !Parses(token, genuine, at.parsed) then (rows, InvalidCredentials)
    else if token.tokenId !in rows || rows[token.tokenId].tokenHash != hash(token) then (rows, InvalidCredentials)
    else
      var row := rows[token.tokenId];
      match Refusal(row, at.checked)
      case Some(refused) => (rows, refused)
      case None =>
        if account.Missing? then (rows, InvalidCredentials)
        else if account.Disabled? then (rows, AccountDisabled)
        else
          match IssueTokens(token.userId, newId, CarriedStart(token, row), at.issued)
          case None => (rows, LimitReached)
          case Some(t) =>
            if newId in rows || !commits then (rows, StoreFailed)
            else (Rotated(hash, rows, token.tokenId, t, at.stored), Granted(t))
  }

  // `written`: the database takes the write.
  function Revoked(rows: Rows, token: RefreshToken, genuine: bool, now: int, written: bool): Rows {
    if Parses(token, genuine, now) && token.tokenId in rows && written
    then rows[token.tokenId := RevokedRow(rows[token.tokenId])]
    else rows
  }

  function AllRevoked(rows: Rows, userId: Uuid): Rows {
    map id <- rows :: if rows[id].userId == userId then RevokedRow(rows[id]) else rows[id]
  }

  // The table of refresh tokens.
  class AuthDatabase {
    const hash: Hasher
    var rows: Rows

    constructor (hash: Hasher)
      ensures this.hash == hash && rows == map[]
    {
      this.hash := hash;
      rows := map[];
    }

    // Inserts the token's row; false when the id is taken or the write is refused.
    method StoreRefreshToken(t: Issued, now: int, commits: bool) returns (ok: bool)
      modifies this
      ensures ok <==> t.token.tokenId !in old(rows) && commits
      ensures rows == if ok then old(rows)[t.token.tokenId := StoredRow(hash, t, now)] else old(rows)
    {
      if t.token.tokenId in rows || !commits {
        return false;
      }
      var idle := now + IDLE_WINDOW;
      var absolute := t.sessionCreatedAt + REFRESH_TTL;
      var row := RefreshRow(t.token.userId, hash(t.token), false, None, t.refreshExpiresAt, idle, absolute);
      rows := rows[t.token.tokenId := row];
      return true;
    }

    method SignIn(userId: Uuid, newId: Uuid, issuedAt: int, storedAt: int, commits: bool) returns (r: Outcome)
      modifies this
      ensures (rows, r) == SignedIn(hash, old(rows), userId, newId, issuedAt, storedAt, commits)
    {
      var tokens := IssueTokens(userId, newId, ZERO_TIME, issuedAt);
      if tokens.None? {
        return LimitReached;
      }
      var ok := StoreRefreshToken(tokens.value, storedAt, commits);
      r := if ok then Granted(tokens.value) else StoreFailed;
    }

    method RefreshSession(token: RefreshToken, genuine: bool, account: Account, newId: Uuid, at: Readings, commits: bool)
      returns (r: Outcome)
      modifies this
      ensures (rows, r) == Refreshed(hash, old(rows), token, genuine, account, newId, at, commits)
    {
      if !Parses(token, genuine, at.parsed) {
        return InvalidCredentials;
      }
      if token.tokenId !in rows || rows[token.tokenId].tokenHash != hash(token) {
        return InvalidCredentials;
      }
      var row := rows[token.tokenId];
      if row.revoked {
        return InvalidCredentials;
      }
      if row.idleExpiresAt < at.checked {
        return SessionIdleExpired;
      }
      if row.absoluteExpiresAt < at.checked {
        return SessionAbsoluteExpired;
      }
      if row.expiresAt < at.checked {
        return SessionAbsoluteExpired;
      }
      if account.Missing? {
        return InvalidCredentials;
      }
      if account.Disabled? {
        return AccountDisabled;
      }
      var created := token.sessionCreatedAt * SECOND;
      if created == ZERO_TIME {
        created := row.absoluteExpiresAt - REFRESH_TTL;
      }
      var tokens := IssueTokens(token.userId, newId, created, at.issued);
      if tokens.None? {
        return LimitReached;
      }
      // One transaction: the old row is replaced and the new one stored, or neither.
      var before := rows;
      rows := rows[token.tokenId := row.(revoked := true, replacedBy := Some(newId))];
      var ok := StoreRefreshToken(tokens.value, at.stored, commits);
      if !ok {
        rows := before;
        return StoreFailed;
      }
      return Granted(tokens.value);
    }

    // A write that fails is not noticed.
    method RevokeRefreshToken(token: RefreshToken, genuine: bool, now: int, written: bool)
      modifies this
      ensures rows == Revoked(old(rows), token, genuine, now, written)
    {
      if Parses(token, genuine, now) && token.tokenId in rows && written {
        var row := rows[token.tokenId];
        rows := rows[token.tokenId := row.(revoked := true)];
      }
    }

    // A write that fails is reported.
    method RevokeAllUserSessions(userId: Uuid, written: bool) returns (ok: bool)
      modifies this
      ensures ok == written && rows == if ok then AllRevoked(old(rows), userId) else old(rows)
    {
      if !written {
        return false;
      }
      var todo := rows.Keys;
      while todo != {}
        invariant todo <= old(rows).Keys && rows.Keys == old(rows).Keys
        invariant forall id :: id in old(rows) ==>
          rows[id] == if id in todo then old(rows)[id] else AllRevoked(old(rows), userId)[id]
        decreases |todo|
      {
        var id :| id in todo;
        if rows[id].userId == userId {
          rows := rows[id := rows[id].(revoked := true)];
        }
        todo := todo - {id};
      }
      assert rows == AllRevoked(old(rows), userId);
      ok := true;
    }
  }
}
