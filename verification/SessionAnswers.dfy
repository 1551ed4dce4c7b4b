/** What a refresh or a sign-in is answered, in any state that a run can reach. */
module SessionAnswers {
  import opened Wrappers
  import opened AuthSessions
  import opened SessionRuns

  const QUARTER_HOUR: int := 900_000_000_000
  const EIGHT_HOURS: int := 28_800_000_000_000

  // The token is one that was issued, unchanged, is within the eight hours its session
  // has when it is read, and is neither rotated nor revoked.
  ghost predicate Usable(hash: Hasher, s: State, a: Action)
    requires a.Refresh?
  {
    var id := a.token.tokenId;
    && a.genuine && id in s.rows && id in s.lineage && a.token == s.lineage[id].tokens.token
    && !s.rows[id].revoked
    && ReadingsOf(s, a).parsed < Floor(s.lineage[id].startedAt) + EIGHT_HOURS
  }

  // When it was checked, a quarter of an hour had passed since the token was stored.
  ghost predicate Idle(s: State, a: Action)
    requires a.Refresh? && a.token.tokenId in s.lineage
  {
    ReadingsOf(s, a).checked > s.lineage[a.token.tokenId].storedAt + QUARTER_HOUR
  }

  // When it was checked, the eight hours of the session were over.
  ghost predicate Over(s: State, a: Action)
    requires a.Refresh? && a.token.tokenId in s.lineage
  {
    var l := s.lineage[a.token.tokenId];
    ReadingsOf(s, a).checked > (if l.rotations == 0 then l.startedAt as int else Floor(l.startedAt)) + EIGHT_HOURS
  }

  // When the new pair was issued, they were.
  ghost predicate TooLate(s: State, a: Action)
    requires a.Refresh? && a.token.tokenId in s.lineage
  {
    ReadingsOf(s, a).issued > Floor(s.lineage[a.token.tokenId].startedAt) + EIGHT_HOURS
  }

  lemma TokenAsIssued(hash: Hasher, s: State, a: Action)
    requires Injective(hash) && Inv(hash, s) && a.Refresh?
    ensures var id := a.token.tokenId;
            Usable(hash, s, a) <==>
            Parses(a.token, a.genuine, ReadingsOf(s, a).parsed)
            && id in s.rows && s.rows[id].tokenHash == hash(a.token) && !s.rows[id].revoked
  {
    var id := a.token.tokenId;
    if id in s.rows {
      assert RowRight(hash, s, id);
    }
  }

  lemma LimitsAsStored(hash: Hasher, s: State, a: Action)
    requires Injective(hash) && Inv(hash, s) && a.Refresh? && Usable(hash, s, a)
    ensures var (row, now) := (s.rows[a.token.tokenId], ReadingsOf(s, a).checked);
            Refusal(row, now) == if Idle(s, a) then Some(SessionIdleExpired)
                                 else if Over(s, a) then Some(SessionAbsoluteExpired) else None
  {
    assert RowRight(hash, s, a.token.tokenId);
  }

  lemma IssuedAsCarried(hash: Hasher, s: State, a: Action)
    requires Injective(hash) && Inv(hash, s) && a.Refresh? && Usable(hash, s, a)
    ensures var id := a.token.tokenId;
            var t := IssueTokens(a.token.userId, a.newId, CarriedStart(a.token, s.rows[id]), ReadingsOf(s, a).issued);
            && (t.None? <==> TooLate(s, a))
            && (t.Some? ==>
                  && t.value.accessExpiresAt == ReadingsOf(s, a).issued + QUARTER_HOUR
                  && t.value.refreshExpiresAt == Floor(s.lineage[id].startedAt) + EIGHT_HOURS
                  && t.value.token.tokenId == a.newId && t.value.token.userId == s.rows[id].userId)
  {
    var l := s.lineage[a.token.tokenId];
    assert RowRight(hash, s, a.token.tokenId);
    FloorFacts(l.startedAt);
    IssuedRight(a.token.userId, a.newId, Floor(l.startedAt), l.startedAt, ReadingsOf(s, a).issued);
  }

  // Which answer a refresh gets, in the order in which things are looked at: the token,
  // the quarter hour since it was stored, the eight hours of the session, the account,
  // the eight hours again, and the write. Only a granted refresh changes any row.
  lemma RefreshAnswers(hash: Hasher, s: State, a: Action)
    requires Injective(hash) && Inv(hash, s) && a.Refresh?
    ensures var (rows, r) := ResultOf(hash, s, a);
            && (!Usable(hash, s, a) ==> r == InvalidCredentials)
            && (Usable(hash, s, a) ==>
                  && (r == SessionIdleExpired <==> Idle(s, a))
                  && (r == SessionAbsoluteExpired <==> !Idle(s, a) && Over(s, a))
                  && (!Idle(s, a) && !Over(s, a) ==>
                        && (r == InvalidCredentials <==> a.account.Missing?)
                        && (r == AccountDisabled <==> a.account.Disabled?)
                        && (r == LimitReached <==> a.account.Active? && TooLate(s, a))
                        && (r == StoreFailed <==> a.account.Active? && !TooLate(s, a) && (a.newId in s.rows || !a.commits))))
            && (!r.Granted? ==> rows == s.rows)
  {
    hide Inv, Usable, Idle, Over, TooLate, Parses, IssueTokens, CarriedStart, Rotated, Injective;
    TokenAsIssued(hash, s, a);
    if Usable(hash, s, a) {
      LimitsAsStored(hash, s, a);
      IssuedAsCarried(hash, s, a);
    }
  }

  // The session's end is only ever answered as such to a token that was still within it
  // when it was read and no longer when its row was checked; later it does not even parse.
  lemma SessionEndIsSeenInPassing(hash: Hasher, s: State, a: Action)
    requires Injective(hash) && Inv(hash, s) && a.Refresh? && ResultOf(hash, s, a).1 == SessionAbsoluteExpired
    ensures a.token.tokenId in s.lineage
    ensures var limit := Floor(s.lineage[a.token.tokenId].startedAt) + EIGHT_HOURS;
            ReadingsOf(s, a).parsed < limit < ReadingsOf(s, a).checked
  {
    RefreshAnswers(hash, s, a);
    FloorFacts(s.lineage[a.token.tokenId].startedAt);
  }

  // What a granted refresh hands out and leaves behind: the token used up in favour of
  // the new one, which has a quarter of an hour, and not past the session's eight hours.
  lemma GrantLeaves(hash: Hasher, s: State, a: Action)
    requires Injective(hash) && Inv(hash, s) && a.Refresh? && ResultOf(hash, s, a).1.Granted?
    ensures var (rows, r) := ResultOf(hash, s, a);
            var (id, limit) := (a.token.tokenId, Floor(s.lineage[a.token.tokenId].startedAt) + EIGHT_HOURS);
            && id in s.rows && a.newId !in s.rows
            && r.tokens.token.tokenId == a.newId && r.tokens.token.userId == s.rows[id].userId
            && r.tokens.accessExpiresAt == ReadingsOf(s, a).issued + QUARTER_HOUR && r.tokens.refreshExpiresAt == limit
            && rows == s.rows[id := s.rows[id].(revoked := true, replacedBy := Some(a.newId))]
                             [a.newId := RefreshRow(s.rows[id].userId, hash(r.tokens.token), false, None, limit,
                                                    ReadingsOf(s, a).stored + QUARTER_HOUR, limit)]
  {
    RefreshGranted(hash, s, a);
    var id := a.token.tokenId;
    var l := s.lineage[id];
    assert RowRight(hash, s, id);
    FloorFacts(l.startedAt);
    IssuedRight(a.token.userId, a.newId, Floor(l.startedAt), l.startedAt, ReadingsOf(s, a).issued);
  }

  // A sign-in is granted exactly when its new row can be written; its access token has a
  // quarter of an hour and its session eight hours.
  lemma SignInAnswers(hash: Hasher, s: State, a: Action)
    requires a.SignIn?
    ensures var (rows, r) := ResultOf(hash, s, a);
            && (r.Granted? <==> a.newId !in s.rows && a.commits) && (!r.Granted? ==> r == StoreFailed && rows == s.rows)
            && (r.Granted? ==>
                  && r.tokens.token.tokenId == a.newId && r.tokens.token.userId == a.userId
                  && r.tokens.accessExpiresAt == s.clock + QUARTER_HOUR && r.tokens.refreshExpiresAt == s.clock + EIGHT_HOURS
                  && rows == s.rows[a.newId := RefreshRow(a.userId, hash(r.tokens.token), false, None, s.clock + EIGHT_HOURS,
                                                          s.clock + a.write + QUARTER_HOUR, s.clock + EIGHT_HOURS)])
  {
  }

  // A token that was signed out is never exchanged again: whatever happens later, a
  // refresh with it is answered as with no credentials at all.
  lemma SignedOutStaysOut(hash: Hasher, acts: seq<Action>, token: RefreshToken, more: seq<Action>, a: Action)
    requires Injective(hash) && a.Refresh? && a.token.tokenId == token.tokenId
    requires token.tokenId in Run(hash, START, acts).rows
    requires token.notBefore <= Run(hash, START, acts).clock < token.expiresAt
    ensures var s := Run(hash, START, acts);
            ResultOf(hash, Run(hash, Step(hash, s, Revoke(token, true, true)), more), a).1 == InvalidCredentials
  {
    var s := Run(hash, START, acts);
    RevokedRowsAreFinal(hash, Step(hash, s, Revoke(token, true, true)), more, token.tokenId);
  }
}
