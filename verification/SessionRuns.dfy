/**
  Whole runs of sign-ins, refreshes and revocations, one after another, with a
  clock that moves forward within and between them.
 */
module SessionRuns {
  import opened Wrappers
  import opened AuthSessions

  datatype Action =
    | Wait(elapsed: nat)
    | SignIn(userId: Uuid, newId: Uuid, write: nat, commits: bool)
    | Refresh(token: RefreshToken, genuine: bool, account: Account, newId: Uuid,
              check: nat, issue: nat, write: nat, commits: bool)
    | Revoke(token: RefreshToken, genuine: bool, written: bool)
    | RevokeAll(userId: Uuid, written: bool)

  // Where a token comes from: the sign-in at the root of its chain of rotations,
  // and what was issued and stored with it.
  datatype Lineage = Lineage(root: Uuid, startedAt: nat, rotations: nat, tokens: Issued, storedAt: nat)

  datatype State = State(clock: nat, rows: Rows, lineage: map<Uuid, Lineage>)

  const START := State(0, map[], map[])

  function ReadingsOf(s: State, a: Action): Readings
    requires a.Refresh?
  {
    Readings(s.clock, s.clock + a.check, s.clock + a.check + a.issue, s.clock + a.check + a.issue + a.write)
  }

  function ResultOf(hash: Hasher, s: State, a: Action): (Rows, Outcome)
    requires a.SignIn? || a.Refresh?
  {
    match a
    case SignIn(u, id, write, commits) => SignedIn(hash, s.rows, u, id, s.clock, s.clock + write, commits)
    case Refresh(token, genuine, account, id, _, _, _, commits) =>
      Refreshed(hash, s.rows, token, genuine, account, id, ReadingsOf(s, a), commits)
  }

  // This action exchanges the token with this id for a new pair.
  predicate Rotates(hash: Hasher, s: State, a: Action, id: Uuid) {
    a.Refresh? && a.token.tokenId == id && ResultOf(hash, s, a).1.Granted?
  }

  function SignInStep(hash: Hasher, s: State, a: Action): State
    requires a.SignIn?
  {
    var (rows, outcome) := ResultOf(hash, s, a);
    var later := s.clock + a.write;
    if outcome.Granted?
    then State(later, rows, s.lineage[a.newId := Lineage(a.newId, s.clock, 0, outcome.tokens, later)])
    else s.(clock := later)
  }

  function RefreshStep(hash: Hasher, s: State, a: Action): State
    requires a.Refresh?
  {
    var (rows, outcome) := ResultOf(hash, s, a);
    var later := ReadingsOf(s, a).stored;
    if outcome.Granted? && a.token.tokenId in s.lineage then
      var l := s.lineage[a.token.tokenId];
      State(later, rows, s.lineage[a.newId := Lineage(l.root, l.startedAt, l.rotations + 1, outcome.tokens, later)])
    else s.(clock := later, rows := rows)
  }

  function Step(hash: Hasher, s: State, a: Action): State {
    match a
    case Wait(d) => s.(clock := s.clock + d)
    case SignIn(_, _, _, _) => SignInStep(hash, s, a)
    case Refresh(_, _, _, _, _, _, _, _) => RefreshStep(hash, s, a)
    case Revoke(token, genuine, written) => s.(rows := Revoked(s.rows, token, genuine, s.clock, written))
    case RevokeAll(u, written) => if written then s.(rows := AllRevoked(s.rows, u)) else s
  }

  function Run(hash: Hasher, s: State, acts: seq<Action>): State {
    if acts == [] then s else Step(hash, Run(hash, s, acts[..|acts| - 1]), acts[|acts| - 1])
  }

  // ---- What every run keeps --------------------------------------------------------

  ghost predicate Injective(hash: Hasher) {
    forall a, b :: hash(a) == hash(b) ==> a == b
  }

  // The absolute limit of a token: eight hours after sign-in for the first, eight
  // hours after the second the sign-in falls in for every later one.
  function Wall(l: Lineage): int {
    (if l.rotations == 0 then l.startedAt as int else Floor(l.startedAt)) + REFRESH_TTL
  }

  predicate TokenRight(l: Lineage, id: Uuid, userId: Uuid) {
    var t := l.tokens.token;
    && t.tokenId == id && t.userId == userId
    && t.sessionCreatedAt * SECOND == Floor(l.startedAt)
    && t.expiresAt == Floor(l.startedAt) + REFRESH_TTL
    && t.notBefore <= l.storedAt
    && l.tokens.accessExpiresAt <= l.startedAt + REFRESH_TTL + ACCESS_TTL
  }

  predicate LimitsRight(row: RefreshRow, l: Lineage) {
    && row.expiresAt == row.absoluteExpiresAt == Wall(l)
    && row.idleExpiresAt == l.storedAt + IDLE_WINDOW
  }

  predicate RowRight(hash: Hasher, s: State, id: Uuid)
    requires id in s.rows && id in s.lineage
  {
    var row, l := s.rows[id], s.lineage[id];
    && row.tokenHash == hash(l.tokens.token)
    && TokenRight(l, id, row.userId)
    && LimitsRight(row, l)
    && l.startedAt <= l.storedAt <= s.clock
  }

  // The chain this token belongs to starts at its root's sign-in, by the same user.
  predicate RootRight(s: State, id: Uuid)
    requires id in s.rows && id in s.lineage
  {
    var l := s.lineage[id];
    && l.root in s.lineage && l.root in s.rows
    && s.rows[l.root].userId == s.rows[id].userId
    && s.lineage[l.root].root == l.root
    && s.lineage[l.root].startedAt == l.startedAt
  }

  // Of two tokens of one session, one replaced the other, directly or not.
  predicate Ordered(s: State, a: Uuid, b: Uuid)
    requires a in s.rows && a in s.lineage && b in s.lineage
  {
    s.lineage[a].root == s.lineage[b].root ==>
      && (s.lineage[a].rotations < s.lineage[b].rotations ==> s.rows[a].revoked)
      && (s.lineage[a].rotations == s.lineage[b].rotations ==> a == b)
  }

  ghost predicate Inv(hash: Hasher, s: State) {
    && s.rows.Keys == s.lineage.Keys
    && (forall id <- s.rows :: RowRight(hash, s, id))
    && (forall id <- s.rows :: RootRight(s, id))
    && (forall a <- s.rows, b <- s.rows :: Ordered(s, a, b))
  }

  lemma FloorFacts(t: int)
    ensures Floor(t) <= t < Floor(t) + SECOND
    ensures Floor(t) == t / SECOND * SECOND
    ensures Floor(Floor(t)) == Floor(t)
    ensures Floor(t + REFRESH_TTL) == Floor(t) + REFRESH_TTL
  {
    assert REFRESH_TTL == 28800 * SECOND;
    assert (t + REFRESH_TTL) % SECOND == t % SECOND;
  }

  // What IssueTokens hands out for a session that started at `startedAt`.
  lemma IssuedRight(userId: Uuid, id: Uuid, created: int, startedAt: nat, now: int)
    requires created == Floor(startedAt) && startedAt <= now
    ensures var t := IssueTokens(userId, id, created, now);
            && (t.Some? <==> now <= Floor(startedAt) + REFRESH_TTL)
            && (t.Some? ==>
                  && t.value.token.tokenId == id && t.value.token.userId == userId
                  && t.value.token.sessionCreatedAt * SECOND == Floor(startedAt)
                  && t.value.token.expiresAt == Floor(startedAt) + REFRESH_TTL
                  && t.value.token.notBefore <= now
                  && t.value.refreshExpiresAt == Floor(startedAt) + REFRESH_TTL
                  && t.value.sessionCreatedAt == Floor(startedAt)
                  && t.value.accessExpiresAt == now + ACCESS_TTL)
  {
    FloorFacts(startedAt);
    FloorFacts(now);
    FloorFacts(created);
    assert created / SECOND * SECOND == created;
  }

  // A granted refresh, spelled out: which token was rotated and what it became.
  lemma RefreshGranted(hash: Hasher, s: State, a: Action)
    requires Injective(hash) && Inv(hash, s) && a.Refresh? && ResultOf(hash, s, a).1.Granted?
    ensures var (rows, outcome) := ResultOf(hash, s, a);
            && a.token.tokenId in s.rows && a.newId !in s.rows
            && a.token == s.lineage[a.token.tokenId].tokens.token
            && !s.rows[a.token.tokenId].revoked
            && var l := s.lineage[a.token.tokenId];
            && IssueTokens(a.token.userId, a.newId, Floor(l.startedAt), ReadingsOf(s, a).issued) == Some(outcome.tokens)
            && rows == Rotated(hash, s.rows, a.token.tokenId, outcome.tokens, ReadingsOf(s, a).stored)
  {
    var id := a.token.tokenId;
    assert RowRight(hash, s, id);
    FloorFacts(s.lineage[id].startedAt);
  }

  lemma SignInKeepsInvariant(hash: Hasher, s: State, a: Action)
    requires Inv(hash, s) && a.SignIn? && ResultOf(hash, s, a).1.Granted?
    ensures Inv(hash, Step(hash, s, a))
  {
    FloorFacts(s.clock);
    var s' := Step(hash, s, a);
    assert RowRight(hash, s', a.newId);
    forall id <- s'.rows ensures RowRight(hash, s', id) && RootRight(s', id) {
      if id != a.newId {
        assert RowRight(hash, s, id) && RootRight(s, id);
      }
    }
    forall x <- s'.rows, y <- s'.rows ensures Ordered(s', x, y) {
      if x != a.newId && y != a.newId {
        assert Ordered(s, x, y);
      } else {
        assert x != a.newId ==> RootRight(s, x);
        assert y != a.newId ==> RootRight(s, y);
      }
    }
  }

  lemma RefreshKeepsRows(hash: Hasher, s: State, a: Action, id: Uuid)
    requires Injective(hash) && Inv(hash, s) && a.Refresh? && ResultOf(hash, s, a).1.Granted?
    requires id in Step(hash, s, a).rows
    ensures var s' := Step(hash, s, a); id in s'.lineage && RowRight(hash, s', id) && RootRight(s', id)
  {
    RefreshGranted(hash, s, a);
    var s', parent := Step(hash, s, a), a.token.tokenId;
    assert RowRight(hash, s, parent) && RootRight(s, parent);
    if id == a.newId {
      var l := s.lineage[parent];
      FloorFacts(l.startedAt);
      IssuedRight(a.token.userId, a.newId, Floor(l.startedAt), l.startedAt, ReadingsOf(s, a).issued);
    } else {
      assert RowRight(hash, s, id) && RootRight(s, id);
    }
  }

  lemma RefreshKeepsOrder(hash: Hasher, s: State, a: Action, x: Uuid, y: Uuid)
    requires Injective(hash) && Inv(hash, s) && a.Refresh? && ResultOf(hash, s, a).1.Granted?
    requires x in Step(hash, s, a).rows && y in Step(hash, s, a).rows
    ensures var s' := Step(hash, s, a); x in s'.lineage && y in s'.lineage && Ordered(s', x, y)
  {
    RefreshGranted(hash, s, a);
    var parent := a.token.tokenId;
    if x != a.newId {
      assert Ordered(s, x, parent) && Ordered(s, parent, x);
    }
    if y != a.newId {
      assert Ordered(s, y, parent) && Ordered(s, parent, y);
      if x != a.newId {
        assert Ordered(s, x, y);
      }
    }
  }

  // Steps that issue nothing: the clock may move, and rows may become revoked.
  lemma QuietStepKeepsInvariant(hash: Hasher, s: State, s': State)
    requires Inv(hash, s) && s'.lineage == s.lineage && s'.rows.Keys == s.rows.Keys && s.clock <= s'.clock
    requires forall id <- s.rows :: s'.rows[id] == s.rows[id] || s'.rows[id] == RevokedRow(s.rows[id])
    ensures Inv(hash, s')
  {
    forall id <- s'.rows ensures RowRight(hash, s', id) && RootRight(s', id) {
      assert RowRight(hash, s, id) && RootRight(s, id);
    }
    forall x <- s'.rows, y <- s'.rows ensures Ordered(s', x, y) {
      assert Ordered(s, x, y);
    }
  }

  lemma RefreshKeepsInvariant(hash: Hasher, s: State, a: Action)
    requires Injective(hash) && Inv(hash, s) && a.Refresh? && ResultOf(hash, s, a).1.Granted?
    ensures Inv(hash, Step(hash, s, a))
  {
    var s' := Step(hash, s, a);
    assert s'.rows.Keys == s'.lineage.Keys by {
      RefreshGranted(hash, s, a);
    }
    forall id <- s'.rows ensures RowRight(hash, s', id) && RootRight(s', id) {
      RefreshKeepsRows(hash, s, a, id);
    }
    forall x <- s'.rows, y <- s'.rows ensures Ordered(s', x, y) {
      RefreshKeepsOrder(hash, s, a, x, y);
    }
  }

  // This action hands out a new token.
  predicate Issues(hash: Hasher, s: State, a: Action) {
    (a.SignIn? || a.Refresh?) && ResultOf(hash, s, a).1.Granted?
  }

  lemma OtherStepsAreQuiet(hash: Hasher, s: State, a: Action)
    requires !Issues(hash, s, a)
    ensures var s' := Step(hash, s, a);
            && s'.lineage == s.lineage && s'.rows.Keys == s.rows.Keys && s.clock <= s'.clock
            && forall id <- s.rows :: s'.rows[id] == s.rows[id] || s'.rows[id] == RevokedRow(s.rows[id])
  {
  }

  lemma StepKeepsInvariant(hash: Hasher, s: State, a: Action)
    requires Injective(hash) && Inv(hash, s)
    ensures Inv(hash, Step(hash, s, a))
  {
    if !Issues(hash, s, a) {
      OtherStepsAreQuiet(hash, s, a);
      QuietStepKeepsInvariant(hash, s, Step(hash, s, a));
    } else if a.SignIn? {
      SignInKeepsInvariant(hash, s, a);
    } else {
      RefreshKeepsInvariant(hash, s, a);
    }
  }

  lemma {:induction false} EveryRunKeepsInvariant(hash: Hasher, acts: seq<Action>)
    requires Injective(hash)
    ensures Inv(hash, Run(hash, START, acts))
  {
    if acts != [] {
      EveryRunKeepsInvariant(hash, acts[..|acts| - 1]);
      StepKeepsInvariant(hash, Run(hash, START, acts[..|acts| - 1]), acts[|acts| - 1]);
    }
  }

  // ---- The absolute limit ------------------------------------------------------------

  // The stored limits of every token of a session are its wall, which no rotation
  // moves later, and no access token outlives sign-in by more than 8 h 15 min.
  lemma WallsNeverGrow(hash: Hasher, acts: seq<Action>, a: Uuid, b: Uuid)
    requires Injective(hash)
    requires var s := Run(hash, START, acts);
             a in s.lineage && b in s.lineage && s.lineage[a].root == s.lineage[b].root
             && s.lineage[a].rotations <= s.lineage[b].rotations
    ensures var s := Run(hash, START, acts);
            && b in s.rows && s.rows[b].absoluteExpiresAt == s.rows[b].expiresAt == Wall(s.lineage[b])
            && a in s.rows && s.rows[b].absoluteExpiresAt <= s.rows[a].absoluteExpiresAt
            && s.lineage[b].tokens.accessExpiresAt <= s.lineage[a].startedAt + REFRESH_TTL + ACCESS_TTL
  {
    EveryRunKeepsInvariant(hash, acts);
    var s := Run(hash, START, acts);
    assert RowRight(hash, s, a) && RowRight(hash, s, b) && RootRight(s, a) && RootRight(s, b);
    FloorFacts(s.lineage[a].startedAt);
  }

  // Exactly when a refresh succeeds. The last row of conditions is the wall: the
  // token is read before, and the new pair issued at or before, eight hours after
  // the second the session started in -- for the first token too, whose row
  // allows up to a second more.
  lemma RefreshSucceedsIff(hash: Hasher, s: State, a: Action)
    requires Injective(hash) && Inv(hash, s) && a.Refresh?
    ensures var at := ReadingsOf(s, a);
            var id := a.token.tokenId;
            ResultOf(hash, s, a).1.Granted? <==>
              && a.genuine && id in s.rows && a.token == s.lineage[id].tokens.token
              && !s.rows[id].revoked && at.checked <= s.lineage[id].storedAt + IDLE_WINDOW
              && a.account.Active? && a.newId !in s.rows && a.commits
              && at.parsed < Floor(s.lineage[id].startedAt) + REFRESH_TTL
              && at.issued <= Floor(s.lineage[id].startedAt) + REFRESH_TTL
  {
    var id := a.token.tokenId;
    if id in s.rows {
      assert RowRight(hash, s, id);
      var l := s.lineage[id];
      FloorFacts(l.startedAt);
      if a.token == l.tokens.token {
        IssuedRight(a.token.userId, a.newId, Floor(l.startedAt), l.startedAt, ReadingsOf(s, a).issued);
      }
    }
  }

  // A token minted before the session start was carried in the claims reads as
  // starting in 1970, not as having no start, so the fallback is never taken and
  // no such token can be exchanged any more.
  lemma OlderTokensCannotRefresh(hash: Hasher, rows: Rows, token: RefreshToken, genuine: bool, account: Account,
                                 newId: Uuid, at: Readings, commits: bool)
    requires token.sessionCreatedAt == 0 && REFRESH_TTL < at.issued
    ensures !Refreshed(hash, rows, token, genuine, account, newId, at, commits).1.Granted?
    ensures Refreshed(hash, rows, token, genuine, account, newId, at, commits).0 == rows
  {
    assert 0 * SECOND != ZERO_TIME;
    assert IssueTokens(token.userId, newId, 0, at.issued).None?;
  }

  // ---- Rotation ----------------------------------------------------------------------

  lemma StepKeepsRevoked(hash: Hasher, s: State, a: Action, id: Uuid)
    requires id in s.rows && s.rows[id].revoked
    ensures var s' := Step(hash, s, a); id in s'.rows && s'.rows[id] == s.rows[id]
    ensures !Rotates(hash, s, a, id)
  {
  }

  // A revoked row never changes again, whatever happens later.
  lemma {:induction false} RevokedRowsAreFinal(hash: Hasher, s: State, acts: seq<Action>, id: Uuid)
    requires id in s.rows && s.rows[id].revoked
    ensures var s' := Run(hash, s, acts); id in s'.rows && s'.rows[id] == s.rows[id]
  {
    if acts != [] {
      RevokedRowsAreFinal(hash, s, acts[..|acts| - 1], id);
      StepKeepsRevoked(hash, Run(hash, s, acts[..|acts| - 1]), acts[|acts| - 1], id);
    }
  }

  // How often a run exchanges this token.
  function Rotations(hash: Hasher, s: State, acts: seq<Action>, id: Uuid): nat {
    if acts == [] then 0
    else
      var init := acts[..|acts| - 1];
      Rotations(hash, s, init, id) + if Rotates(hash, Run(hash, s, init), acts[|acts| - 1], id) then 1 else 0
  }

  // A token is exchanged at most once, and is revoked from then on.
  lemma {:induction false} RotatesAtMostOnce(hash: Hasher, s: State, acts: seq<Action>, id: Uuid)
    ensures Rotations(hash, s, acts, id) <= 1
    ensures Rotations(hash, s, acts, id) == 1 ==>
              var s' := Run(hash, s, acts); id in s'.rows && s'.rows[id].revoked
  {
    if acts != [] {
      var init, last := acts[..|acts| - 1], acts[|acts| - 1];
      RotatesAtMostOnce(hash, s, init, id);
      var before := Run(hash, s, init);
      if id in before.rows && before.rows[id].revoked {
        StepKeepsRevoked(hash, before, last, id);
      }
    }
  }

  // A session has at most one token that can still be exchanged.
  lemma OneLiveTokenPerSession(hash: Hasher, acts: seq<Action>, a: Uuid, b: Uuid)
    requires Injective(hash)
    requires var s := Run(hash, START, acts);
             && a in s.rows && b in s.rows && a in s.lineage && b in s.lineage
             && s.lineage[a].root == s.lineage[b].root && !s.rows[a].revoked && !s.rows[b].revoked
    ensures a == b
  {
    EveryRunKeepsInvariant(hash, acts);
    var s := Run(hash, START, acts);
    assert Ordered(s, a, b) && Ordered(s, b, a);
  }

  // ---- Signing out everywhere ---------------------------------------------------------

  // Every token of a session this user started by `earlier` is one of `earlier`'s, and revoked.
  ghost predicate Ended(earlier: State, s: State, userId: Uuid) {
    forall id <- s.rows ::
      id in s.lineage && s.lineage[id].root in earlier.rows && earlier.rows[s.lineage[id].root].userId == userId ==>
        id in earlier.rows && s.rows[id].revoked
  }

  lemma RefreshKeepsEnded(hash: Hasher, earlier: State, s: State, a: Action, userId: Uuid)
    requires Injective(hash) && Inv(hash, s) && Ended(earlier, s, userId)
    requires a.Refresh? && ResultOf(hash, s, a).1.Granted?
    ensures Ended(earlier, Step(hash, s, a), userId)
  {
    hide RowRight, RootRight, Ordered, Refreshed;
    RefreshGranted(hash, s, a);
  }

  lemma SignInKeepsEnded(hash: Hasher, earlier: State, s: State, a: Action, userId: Uuid)
    requires Ended(earlier, s, userId) && earlier.rows.Keys <= s.rows.Keys
    requires a.SignIn? && ResultOf(hash, s, a).1.Granted?
    ensures Ended(earlier, Step(hash, s, a), userId)
  {
    assert a.newId !in s.rows;
  }

  lemma StepKeepsEnded(hash: Hasher, earlier: State, s: State, a: Action, userId: Uuid)
    requires Injective(hash) && Inv(hash, s) && Ended(earlier, s, userId) && earlier.rows.Keys <= s.rows.Keys
    ensures Ended(earlier, Step(hash, s, a), userId)
  {
    if !Issues(hash, s, a) {
      OtherStepsAreQuiet(hash, s, a);
    } else if a.Refresh? {
      RefreshKeepsEnded(hash, earlier, s, a, userId);
    } else {
      SignInKeepsEnded(hash, earlier, s, a, userId);
    }
  }

  lemma RowsStay(hash: Hasher, s: State, a: Action)
    ensures s.rows.Keys <= Step(hash, s, a).rows.Keys
  {
  }

  // Once all of a user's sessions are revoked, and the write is taken, nothing that happens later renews
  // any of them: they get no new token, and none of their tokens works again.
  lemma {:induction false} RevokeAllEndsSessions(hash: Hasher, acts: seq<Action>, userId: Uuid, more: seq<Action>)
    requires Injective(hash)
    ensures var s := Run(hash, START, acts);
            Ended(s, Run(hash, Step(hash, s, RevokeAll(userId, true)), more), userId)
    ensures var s := Run(hash, START, acts);
            && Inv(hash, Run(hash, Step(hash, s, RevokeAll(userId, true)), more))
            && s.rows.Keys <= Run(hash, Step(hash, s, RevokeAll(userId, true)), more).rows.Keys
  {
    var s := Run(hash, START, acts);
    var s1 := Step(hash, s, RevokeAll(userId, true));
    if more == [] {
      EveryRunKeepsInvariant(hash, acts);
      StepKeepsInvariant(hash, s, RevokeAll(userId, true));
      assert forall id <- s.rows :: RootRight(s, id);
    } else {
      var init := more[..|more| - 1];
      RevokeAllEndsSessions(hash, acts, userId, init);
      StepKeepsInvariant(hash, Run(hash, s1, init), more[|more| - 1]);
      StepKeepsEnded(hash, s, Run(hash, s1, init), more[|more| - 1], userId);
      RowsStay(hash, Run(hash, s1, init), more[|more| - 1]);
    }
  }
}
