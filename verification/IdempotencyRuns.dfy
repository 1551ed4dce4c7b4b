/**
  Whole runs of the idempotency gate. Any number of workers serve requests
  concurrently; a worker claims its key, then commits, releases, or is never
  heard of again. The clock only moves forward.
 */
module IdempotencyRuns {
  import opened Wrappers
  import opened IdempotencyStore

  datatype Outcome = Answered(result: ClaimResult) | Committed(envelopeId: Uuid) | GaveUp

  datatype Worker =
    | Working(ref: KeyRef, fingerprint: string, claimedAt: int)
    | Finished(outcome: Outcome)

  datatype State = State(db: Tables, now: int, workers: map<nat, Worker>)

  datatype Action =
    | Tick(elapsed: nat)
    | Claim(w: nat, ref: KeyRef, fingerprint: string)
    | Commit(w: nat, id: Uuid, principal: Uuid, sourceClass: string)
    | Release(w: nat)

  const START: State := State(EMPTY, 0, map[])

  predicate IsWorking(s: State, w: nat) {
    w in s.workers && s.workers[w].Working?
  }

  // The envelope a commit action tries to save.
  function Proposal(s: State, a: Action): Envelope
    requires a.Commit? && IsWorking(s, a.w)
  {
    Envelope(s.workers[a.w].ref, a.principal, a.sourceClass)
  }

  predicate Commits(s: State, a: Action) {
    a.Commit? && IsWorking(s, a.w) && CanSave(s.db, a.id, Proposal(s, a))
  }

  // One atomic step; an action that is not possible changes nothing.
  function Step(s: State, a: Action): State {
    match a
    case Tick(d) => s.(now := s.now + d)
    case Claim(w, ref, fp) =>
      if w in s.workers then s
      else
        var (db', r) := Persisted(s.db, ref, fp, s.now);
        s.(db := db',
           workers := s.workers[w := if r.Proceed? then Working(ref, fp, s.now) else Finished(Answered(r))])
    case Commit(w, id, _, _) =>
      if !Commits(s, a) then s
      else s.(db := Saved(s.db, id, Proposal(s, a), s.now), workers := s.workers[w := Finished(Committed(id))])
    case Release(w) =>
      if !IsWorking(s, w) then s
      else
        var me := s.workers[w];
        s.(db := Released(s.db, me.ref, me.fingerprint, s.now), workers := s.workers[w := Finished(GaveUp)])
  }

  function After(acts: seq<Action>): State {
    if acts == [] then START else Step(After(acts[..|acts| - 1]), acts[|acts| - 1])
  }

  lemma AfterSnoc(acts: seq<Action>, a: Action)
    ensures After(acts + [a]) == Step(After(acts), a)
  {
    assert (acts + [a])[..|acts|] == acts;
  }

  // ---- What every run keeps, whatever the timing --------------------------

  // COMPLETED exactly when an envelope is set; that envelope exists, belongs to
  // the key, and its principal and class are on the row.
  ghost predicate RowAgrees(ref: KeyRef, row: KeyRow, envelopes: map<Uuid, Envelope>) {
    && ref.key != ""
    && (row.status == Completed <==> row.firstEnvelope.Some?)
    && (row.firstEnvelope.Some? ==>
          && row.firstEnvelope.value in envelopes
          && envelopes[row.firstEnvelope.value].ref == ref
          && row.principalFirstSeen == Some(envelopes[row.firstEnvelope.value].principal)
          && row.sourceClassFirstSeen == Some(envelopes[row.firstEnvelope.value].sourceClass))
  }

  ghost predicate KeysAgree(db: Tables) {
    forall ref <- db.keys :: RowAgrees(ref, db.keys[ref], db.envelopes)
  }

  ghost predicate EnvelopesAgree(db: Tables) {
    forall id <- db.envelopes ::
      db.envelopes[id].ref in db.keys && db.keys[db.envelopes[id].ref].status == Completed
  }

  // Committed envelopes and outbox rows correspond one to one.
  ghost predicate OutboxMatches(db: Tables) {
    && (forall i, j :: 0 <= i < j < |db.outbox| ==> db.outbox[i].envelopeId != db.outbox[j].envelopeId)
    && (forall i :: 0 <= i < |db.outbox| ==>
          var id := db.outbox[i].envelopeId;
          id in db.envelopes && db.envelopes[id].ref == db.outbox[i].ref)
    && (forall id <- db.envelopes :: OutboxEntry(id, db.envelopes[id].ref) in db.outbox)
  }

  // Nobody works on a key under a fingerprint other than the stored one.
  ghost predicate WorkersAgree(s: State) {
    forall w | IsWorking(s, w) && s.workers[w].ref.key != "" ::
      && s.workers[w].ref in s.db.keys
      && s.db.keys[s.workers[w].ref].fingerprint == s.workers[w].fingerprint
  }

  ghost predicate Inv(s: State) {
    KeysAgree(s.db) && EnvelopesAgree(s.db) && OutboxMatches(s.db) && WorkersAgree(s)
  }

  // Because the first principal is always on the row, the back-fill from the
  // envelope table never happens.
  lemma BackfillNeverHappens(db: Tables, ref: KeyRef, now: int)
    requires KeysAgree(db) && ref in db.keys
    ensures NoteConflict(db.keys[ref], db.envelopes, now)
         == db.keys[ref].(conflictCount := db.keys[ref].conflictCount + 1, lastConflict := Some(now))
  {
  }

  // Persisting a request rewrites one row at most, and that row keeps what
  // identifies it; the other two tables stay as they are.
  lemma PersistEffect(db: Tables, ref: KeyRef, fp: string, now: int)
    requires KeysAgree(db)
    ensures var (db', r) := Persisted(db, ref, fp, now);
            && db'.envelopes == db.envelopes && db'.outbox == db.outbox
            && (r.Proceed? && ref.key != "" ==>
                  ref in db'.keys && db'.keys[ref].fingerprint == fp && db'.keys[ref].firstEnvelope == None)
            && (ref !in db'.keys ==> db' == db)
            && (ref in db'.keys ==> RowAgrees(ref, db'.keys[ref], db.envelopes) && db'.keys == db.keys[ref := db'.keys[ref]])
            && (ref in db.keys ==> ref in db'.keys && db'.keys[ref].fingerprint == db.keys[ref].fingerprint
                                   && (db.keys[ref].status == Completed ==> db'.keys[ref].status == Completed))
  {
    if ref in db.keys {
      BackfillNeverHappens(db, ref, now);
      assert RowAgrees(ref, db.keys[ref], db.envelopes);
    }
  }

  lemma PersistKeepsKeys(db: Tables, ref: KeyRef, fp: string, now: int)
    requires KeysAgree(db) && EnvelopesAgree(db)
    ensures KeysAgree(Persisted(db, ref, fp, now).0) && EnvelopesAgree(Persisted(db, ref, fp, now).0)
  {
    PersistEffect(db, ref, fp, now);
  }

  lemma SaveKeepsKeys(db: Tables, id: Uuid, e: Envelope, now: int)
    requires KeysAgree(db) && EnvelopesAgree(db)
    ensures KeysAgree(Saved(db, id, e, now)) && EnvelopesAgree(Saved(db, id, e, now))
    ensures forall r <- db.keys :: r in Saved(db, id, e, now).keys
                                   && Saved(db, id, e, now).keys[r].fingerprint == db.keys[r].fingerprint
  {
  }

  lemma SaveKeepsOutbox(db: Tables, id: Uuid, e: Envelope, now: int)
    requires OutboxMatches(db)
    ensures OutboxMatches(Saved(db, id, e, now))
  {
    if CanSave(db, id, e) {
      var db' := Saved(db, id, e, now);
      assert db'.outbox[|db.outbox|] == OutboxEntry(id, e.ref);
      forall x <- db'.envelopes ensures OutboxEntry(x, db'.envelopes[x].ref) in db'.outbox {
        assert x != id ==> OutboxEntry(x, db.envelopes[x].ref) in db.outbox;
      }
    }
  }

  lemma ReleaseKeepsTables(db: Tables, ref: KeyRef, fp: string, now: int)
    requires KeysAgree(db) && EnvelopesAgree(db) && OutboxMatches(db)
    ensures var db' := Released(db, ref, fp, now);
            KeysAgree(db') && EnvelopesAgree(db') && OutboxMatches(db')
  {
    if ref in db.keys {
      assert RowAgrees(ref, db.keys[ref], db.envelopes);
    }
  }

  lemma ReleaseKeepsInv(s: State, w: nat)
    requires Inv(s)
    ensures Inv(Step(s, Release(w)))
  {
    hide KeysAgree, EnvelopesAgree, OutboxMatches;
    if IsWorking(s, w) {
      ReleaseKeepsTables(s.db, s.workers[w].ref, s.workers[w].fingerprint, s.now);
    }
  }

  lemma StepKeepsInv(s: State, a: Action)
    requires Inv(s)
    ensures Inv(Step(s, a))
  {
    hide RowAgrees;
    match a
    case Tick(_) =>
    case Claim(w, ref, fp) =>
      PersistKeepsKeys(s.db, ref, fp, s.now);
      PersistEffect(s.db, ref, fp, s.now);
    case Commit(w, id, _, _) =>
      if Commits(s, a) {
        SaveKeepsKeys(s.db, id, Proposal(s, a), s.now);
        SaveKeepsOutbox(s.db, id, Proposal(s, a), s.now);
      }
    case Release(w) =>
      ReleaseKeepsInv(s, w);
  }

  lemma {:induction false} EveryRunKeepsInvariant(acts: seq<Action>)
    ensures Inv(After(acts))
  {
    if acts != [] {
      EveryRunKeepsInvariant(acts[..|acts| - 1]);
      StepKeepsInv(After(acts[..|acts| - 1]), acts[|acts| - 1]);
    }
  }

  // A stored fingerprint is permanent, and so is every envelope.
  lemma {:induction false} StoredForGood(acts: seq<Action>, more: seq<Action>, ref: KeyRef)
    requires ref in After(acts).db.keys
    ensures ref in After(acts + more).db.keys
    ensures After(acts + more).db.keys[ref].fingerprint == After(acts).db.keys[ref].fingerprint
    ensures forall id <- After(acts).db.envelopes ::
              id in After(acts + more).db.envelopes
              && After(acts + more).db.envelopes[id] == After(acts).db.envelopes[id]
  {
    if more == [] {
      assert acts + more == acts;
    } else {
      var init := more[..|more| - 1];
      StoredForGood(acts, init, ref);
      assert acts + more == (acts + init) + [more[|more| - 1]];
      AfterSnoc(acts + init, more[|more| - 1]);
    }
  }

  // A request under another fingerprint is refused in every reachable state.
  lemma OtherFingerprintIsRefused(acts: seq<Action>, ref: KeyRef, fp: string, now: int)
    requires ref in After(acts).db.keys && After(acts).db.keys[ref].fingerprint != fp
    ensures Persisted(After(acts).db, ref, fp, now).1 == FingerprintMismatch
  {
    EveryRunKeepsInvariant(acts);
  }

  // ---- When the first envelope survives, exactly ---------------------------

  // A commit on a key that is already completed: its UPDATE has no guard.
  predicate Overwrites(s: State, a: Action, ref: KeyRef) {
    Commits(s, a) && Proposal(s, a).ref == ref && s.db.keys[ref].status == Completed
  }

  ghost predicate AtMostOneEnvelope(s: State, ref: KeyRef) {
    forall x, y | x in s.db.envelopes && y in s.db.envelopes
                  && s.db.envelopes[x].ref == ref && s.db.envelopes[y].ref == ref :: x == y
  }

  // No commit of `more`, played after `acts`, meets the key already completed.
  predicate NeverOverwrites(acts: seq<Action>, more: seq<Action>, ref: KeyRef) {
    more == [] ||
    (var init := more[..|more| - 1];
     NeverOverwrites(acts, init, ref) && !Overwrites(After(acts + init), more[|more| - 1], ref))
  }

  lemma StepEnvelopes(s: State, a: Action)
    ensures Step(s, a).db.envelopes ==
            if Commits(s, a) then s.db.envelopes[a.id := Proposal(s, a)] else s.db.envelopes
  {
  }

  lemma StepAtMostOne(s: State, a: Action, ref: KeyRef)
    requires KeysAgree(s.db) && EnvelopesAgree(s.db)
    ensures AtMostOneEnvelope(Step(s, a), ref) <==> AtMostOneEnvelope(s, ref) && !Overwrites(s, a, ref)
  {
    var s' := Step(s, a);
    StepEnvelopes(s, a);
    if Overwrites(s, a, ref) {
      var first := s.db.keys[ref].firstEnvelope.value;
      assert s'.db.envelopes[first].ref == ref && s'.db.envelopes[a.id].ref == ref && first != a.id;
    } else if !AtMostOneEnvelope(s, ref) {
      var x, y :| x in s.db.envelopes && y in s.db.envelopes && x != y
                  && s.db.envelopes[x].ref == ref && s.db.envelopes[y].ref == ref;
      assert s'.db.envelopes[x].ref == ref && s'.db.envelopes[y].ref == ref;
    } else if Commits(s, a) && Proposal(s, a).ref == ref {
      assert forall x <- s.db.envelopes :: s.db.envelopes[x].ref != ref;
    }
  }

  // Over every run: a key has one envelope at most, exactly when no commit met
  // the key already completed.
  lemma {:induction false} AtMostOneEnvelopeIff(acts: seq<Action>, ref: KeyRef)
    ensures AtMostOneEnvelope(After(acts), ref) <==> NeverOverwrites([], acts, ref)
  {
    if acts != [] {
      var init := acts[..|acts| - 1];
      assert [] + init == init;
      EveryRunKeepsInvariant(init);
      AtMostOneEnvelopeIff(init, ref);
      StepAtMostOne(After(init), acts[|acts| - 1], ref);
    }
  }

  lemma StepFirstEnvelope(s: State, a: Action, ref: KeyRef)
    requires KeysAgree(s.db) && ref in s.db.keys && s.db.keys[ref].firstEnvelope.Some?
    ensures var s' := Step(s, a);
            && ref in s'.db.keys && s'.db.keys[ref].firstEnvelope.Some?
            && (Overwrites(s, a, ref) ==> s'.db.keys[ref].firstEnvelope.value !in s.db.envelopes)
            && (!Overwrites(s, a, ref) ==> s'.db.keys[ref].firstEnvelope == s.db.keys[ref].firstEnvelope)
  {
  }

  lemma StepFirstEnvelopeIs(s: State, a: Action, ref: KeyRef, id: Uuid)
    requires KeysAgree(s.db) && ref in s.db.keys && s.db.keys[ref].firstEnvelope.Some?
    requires id in s.db.envelopes
    ensures var s' := Step(s, a);
            && ref in s'.db.keys && s'.db.keys[ref].firstEnvelope.Some?
            && (s'.db.keys[ref].firstEnvelope == Some(id)
                <==> s.db.keys[ref].firstEnvelope == Some(id) && !Overwrites(s, a, ref))
  {
    StepFirstEnvelope(s, a, ref);
  }

  // A set first_envelope_id is still the same one later on, exactly when no
  // commit in between met the key already completed.
  lemma {:induction false} FirstEnvelopeKeptIff(acts: seq<Action>, more: seq<Action>, ref: KeyRef, id: Uuid)
    requires ref in After(acts).db.keys && After(acts).db.keys[ref].firstEnvelope == Some(id)
    ensures ref in After(acts + more).db.keys && After(acts + more).db.keys[ref].firstEnvelope.Some?
    ensures After(acts + more).db.keys[ref].firstEnvelope == Some(id) <==> NeverOverwrites(acts, more, ref)
  {
    if more == [] {
      assert acts + more == acts;
    } else {
      var init, last := more[..|more| - 1], more[|more| - 1];
      FirstEnvelopeKeptIff(acts, init, ref, id);
      assert id in After(acts + init).db.envelopes by {
        EveryRunKeepsInvariant(acts);
        StoredForGood(acts, init, ref);
      }
      assert KeysAgree(After(acts + init).db) by { EveryRunKeepsInvariant(acts + init); }
      assert acts + more == (acts + init) + [last];
      AfterSnoc(acts + init, last);
      StepFirstEnvelopeIs(After(acts + init), last, ref, id);
    }
  }

  // ---- Runs in which nobody acts on a claim older than the stale limit ----

  predicate InTime(s: State, w: nat)
    requires IsWorking(s, w)
  {
    s.now <= s.workers[w].claimedAt + STALE_IN_PROGRESS
  }

  predicate Prompt(s: State, a: Action) {
    match a
    case Commit(w, _, _, _) => IsWorking(s, w) ==> InTime(s, w)
    case Release(w) => IsWorking(s, w) ==> InTime(s, w)
    case _ => true
  }

  predicate Timely(acts: seq<Action>) {
    acts == [] || (Timely(acts[..|acts| - 1]) && Prompt(After(acts[..|acts| - 1]), acts[|acts| - 1]))
  }

  // A worker that may still act on its claim.
  predicate Live(s: State, w: nat) {
    IsWorking(s, w) && s.workers[w].ref.key != "" && InTime(s, w)
  }

  ghost predicate ClaimsHeld(s: State) {
    && (forall w | Live(s, w) ::
          && s.workers[w].ref in s.db.keys
          && s.db.keys[s.workers[w].ref].status == InProgress
          && s.db.keys[s.workers[w].ref].lastSeen == s.workers[w].claimedAt)
    && (forall v, w | Live(s, v) && Live(s, w) && s.workers[v].ref == s.workers[w].ref :: v == w)
  }

  ghost predicate EnvelopeIsFirst(db: Tables) {
    forall id <- db.envelopes ::
      db.envelopes[id].ref in db.keys && db.keys[db.envelopes[id].ref].firstEnvelope == Some(id)
  }

  lemma StillLive(s: State, a: Action, w: nat)
    requires Live(Step(s, a), w)
    ensures Live(s, w) || (a.Claim? && a.w == w && w !in s.workers)
    ensures Live(s, w) ==> Step(s, a).workers[w] == s.workers[w]
  {
  }

  // A live claim bars every other claim on its key.
  lemma LiveClaimBars(s: State, v: nat, fp: string)
    requires Inv(s) && ClaimsHeld(s) && Live(s, v)
    ensures var ref := s.workers[v].ref;
            && !Persisted(s.db, ref, fp, s.now).1.Proceed?
            && Persisted(s.db, ref, fp, s.now).0.keys[ref].status == InProgress
            && Persisted(s.db, ref, fp, s.now).0.keys[ref].lastSeen == s.db.keys[ref].lastSeen
  {
  }

  lemma ClaimKeepsClaims(s: State, a: Action)
    requires Inv(s) && ClaimsHeld(s) && a.Claim?
    ensures ClaimsHeld(Step(s, a))
  {
    hide RowAgrees, OutboxMatches, EnvelopesAgree;
    var s' := Step(s, a);
    forall w | Live(s', w)
      ensures s'.workers[w].ref in s'.db.keys
      ensures s'.db.keys[s'.workers[w].ref].status == InProgress
      ensures s'.db.keys[s'.workers[w].ref].lastSeen == s'.workers[w].claimedAt
    {
      StillLive(s, a, w);
      if Live(s, w) {
        LiveClaimBars(s, w, a.fingerprint);
      }
    }
    forall v, w | Live(s', v) && Live(s', w) && s'.workers[v].ref == s'.workers[w].ref
      ensures v == w
    {
      StillLive(s, a, v);
      StillLive(s, a, w);
      if Live(s, v) {
        LiveClaimBars(s, v, a.fingerprint);
      }
      if Live(s, w) {
        LiveClaimBars(s, w, a.fingerprint);
      }
    }
  }

  // A worker ends its work on a key on which another worker's claim is live.
  ghost predicate Intrudes(s: State, a: Action) {
    && (Commits(s, a) || (a.Release? && IsWorking(s, a.w)))
    && exists v :: v != a.w && Live(s, v) && s.workers[v].ref == s.workers[a.w].ref
  }

  lemma EndKeepsClaims(s: State, a: Action)
    requires Inv(s) && ClaimsHeld(s) && (a.Commit? || a.Release?) && !Intrudes(s, a)
    ensures ClaimsHeld(Step(s, a))
  {
    var s' := Step(s, a);
    if s' != s {
      forall w | Live(s', w)
        ensures Live(s, w) && w != a.w && s'.workers[w] == s.workers[w] && s.workers[w].ref != s.workers[a.w].ref
      {
        StillLive(s, a, w);
      }
    }
  }

  // Whoever intrudes takes the key from the live claim: a commit completes it, a
  // release frees it.
  lemma IntrusionBreaksClaim(s: State, a: Action)
    requires Inv(s) && ClaimsHeld(s) && Intrudes(s, a)
    ensures !ClaimsHeld(Step(s, a))
  {
    var s' := Step(s, a);
    var v :| v != a.w && Live(s, v) && s.workers[v].ref == s.workers[a.w].ref;
    var ref := s.workers[v].ref;
    assert RowAgrees(ref, s.db.keys[ref], s.db.envelopes);
    assert Live(s', v) && s'.db.keys[ref].status != InProgress;
  }

  lemma ClaimsStepIff(s: State, a: Action)
    requires Inv(s) && ClaimsHeld(s)
    ensures ClaimsHeld(Step(s, a)) <==> !Intrudes(s, a)
  {
    hide Inv, ClaimsHeld, Step;
    if Intrudes(s, a) {
      IntrusionBreaksClaim(s, a);
    } else if a.Claim? {
      ClaimKeepsClaims(s, a);
    } else if a.Commit? || a.Release? {
      EndKeepsClaims(s, a);
    } else {
      TimeKeepsClaims(s, a);
    }
  }

  lemma TimeKeepsClaims(s: State, a: Action)
    requires ClaimsHeld(s) && a.Tick?
    ensures ClaimsHeld(Step(s, a))
  {
    var s' := Step(s, a);
    assert forall w :: Live(s', w) ==> Live(s, w);
  }

  // Every live claim holds its key alone, now and at every moment before.
  ghost predicate AlwaysHeld(acts: seq<Action>) {
    ClaimsHeld(After(acts)) && (acts == [] || AlwaysHeld(acts[..|acts| - 1]))
  }

  ghost predicate NobodyIntrudes(acts: seq<Action>) {
    acts == []
    || (NobodyIntrudes(acts[..|acts| - 1]) && !Intrudes(After(acts[..|acts| - 1]), acts[|acts| - 1]))
  }

  // Over every run, whatever the timing: live claims hold their keys alone all the
  // time exactly when nobody ends its work on a key that another claim is live on.
  lemma {:induction false} ClaimsHeldIff(acts: seq<Action>)
    ensures AlwaysHeld(acts) <==> NobodyIntrudes(acts)
  {
    hide Inv, ClaimsHeld, Step, Intrudes;
    if acts == [] {
      NobodyClaims();
    } else {
      var init := acts[..|acts| - 1];
      ClaimsHeldIff(init);
      EveryRunKeepsInvariant(init);
      if ClaimsHeld(After(init)) {
        ClaimsStepIff(After(init), acts[|acts| - 1]);
      }
    }
  }

  lemma NobodyClaims()
    ensures ClaimsHeld(After([]))
  {
  }

  // Who acts in time has a live claim itself, and so does not intrude.
  lemma PromptIsNoIntrusion(s: State, a: Action)
    requires Inv(s) && ClaimsHeld(s) && Prompt(s, a)
    ensures !Intrudes(s, a)
  {
  }

  lemma {:induction false} TimelyRunsNeverIntrude(acts: seq<Action>)
    requires Timely(acts)
    ensures NobodyIntrudes(acts) && AlwaysHeld(acts)
  {
    hide Inv, ClaimsHeld, Step, Intrudes, Prompt;
    if acts != [] {
      var init := acts[..|acts| - 1];
      TimelyRunsNeverIntrude(init);
      EveryRunKeepsInvariant(init);
      PromptIsNoIntrusion(After(init), acts[|acts| - 1]);
    }
    ClaimsHeldIff(acts);
  }

  lemma CommitKeepsFirst(s: State, a: Action)
    requires Inv(s) && ClaimsHeld(s) && EnvelopeIsFirst(s.db) && Prompt(s, a) && a.Commit?
    ensures EnvelopeIsFirst(Step(s, a).db)
  {
    if Commits(s, a) {
      assert Live(s, a.w);
    }
  }

  lemma StepKeepsFirst(s: State, a: Action)
    requires Inv(s) && ClaimsHeld(s) && EnvelopeIsFirst(s.db) && Prompt(s, a)
    ensures EnvelopeIsFirst(Step(s, a).db)
  {
    match a
    case Tick(_) =>
    case Claim(w, ref, fp) =>
      PersistEffect(s.db, ref, fp, s.now);
    case Commit(_, _, _, _) =>
      CommitKeepsFirst(s, a);
    case Release(_) =>
  }

  lemma {:induction false} TimelyRunsKeepClaims(acts: seq<Action>)
    requires Timely(acts)
    ensures Inv(After(acts)) && ClaimsHeld(After(acts)) && EnvelopeIsFirst(After(acts).db)
  {
    hide Inv, ClaimsHeld, Step, Prompt, EnvelopeIsFirst;
    EveryRunKeepsInvariant(acts);
    TimelyRunsNeverIntrude(acts);
    if acts != [] {
      var init := acts[..|acts| - 1];
      TimelyRunsKeepClaims(init);
      StepKeepsFirst(After(init), acts[|acts| - 1]);
    } else {
      NoEnvelopes();
    }
  }

  lemma NoEnvelopes()
    ensures EnvelopeIsFirst(After([]).db)
  {
  }

  // Each key has one live claimant at most, and one envelope at most.
  lemma TimelyRunsAreExclusive(acts: seq<Action>, ref: KeyRef)
    requires Timely(acts)
    ensures forall v, w | Live(After(acts), v) && Live(After(acts), w)
                          && After(acts).workers[v].ref == ref && After(acts).workers[w].ref == ref :: v == w
    ensures AtMostOneEnvelope(After(acts), ref)
  {
    TimelyRunsKeepClaims(acts);
  }

  lemma {:induction false} TimelyNeverOverwrites(acts: seq<Action>, more: seq<Action>, ref: KeyRef)
    requires Timely(acts + more)
    ensures Timely(acts) && NeverOverwrites(acts, more, ref)
  {
    if more == [] {
      assert acts + more == acts;
    } else {
      var init, last := more[..|more| - 1], more[|more| - 1];
      assert (acts + more)[..|acts + more| - 1] == acts + init;
      TimelyNeverOverwrites(acts, init, ref);
      TimelyRunsKeepClaims(acts + init);
      if Overwrites(After(acts + init), last, ref) {
        assert Live(After(acts + init), last.w);
      }
    }
  }

  // Once a key has its envelope, every later request with the same fingerprint
  // is answered with that envelope, at any time.
  lemma LaterRequestsGetTheFirstEnvelope(acts: seq<Action>, more: seq<Action>, ref: KeyRef, now: int)
    requires Timely(acts + more)
    requires ref in After(acts).db.keys && After(acts).db.keys[ref].firstEnvelope.Some?
    ensures var row := After(acts).db.keys[ref];
            Persisted(After(acts + more).db, ref, row.fingerprint, now).1 == Duplicate(row.firstEnvelope.value)
  {
    FirstEnvelopeKeptIff(acts, more, ref, After(acts).db.keys[ref].firstEnvelope.value);
    StoredForGood(acts, more, ref);
    EveryRunKeepsInvariant(acts + more);
    TimelyNeverOverwrites(acts, more, ref);
  }

  // ---- What goes wrong without the time limit ------------------------------

  const KEY: KeyRef := KeyRef(1, "k")

  // A worker that commits after its claim was taken over replaces the envelope.
  lemma LateCommitReplacesTheEnvelope()
    ensures exists acts: seq<Action>, late: Action ::
              && KEY in After(acts).db.keys && After(acts).db.keys[KEY].firstEnvelope == Some(10)
              && KEY in After(acts + [late]).db.keys && After(acts + [late]).db.keys[KEY].firstEnvelope == Some(11)
              && !AtMostOneEnvelope(After(acts + [late]), KEY)
  {
    var a0, a1, a2 := Claim(1, KEY, "f"), Tick(STALE_IN_PROGRESS + 1), Claim(2, KEY, "f");
    var a3, a4 := Commit(2, 10, 0, "c"), Commit(1, 11, 0, "c");
    var s3 := After([a0, a1, a2]);
    AfterSnoc([a0], a1);
    AfterSnoc([a0, a1], a2);
    assert [a0, a1] == [a0] + [a1] && [a0, a1, a2] == [a0, a1] + [a2];
    assert After([a0]) == Step(START, a0) by { AfterSnoc([], a0); assert [] + [a0] == [a0]; }
    assert s3.db.keys[KEY].status == InProgress && IsWorking(s3, 1) && IsWorking(s3, 2);
    var acts := [a0, a1, a2] + [a3];
    AfterSnoc([a0, a1, a2], a3);
    AfterSnoc(acts, a4);
    var s5 := After(acts + [a4]);
    assert 10 in s5.db.envelopes && 11 in s5.db.envelopes;
    assert s5.db.envelopes[10].ref == KEY && s5.db.envelopes[11].ref == KEY;
  }

  // A worker that releases after its claim was taken over frees somebody else's claim.
  lemma LateReleaseAdmitsASecondClaimant()
    ensures exists acts: seq<Action> ::
              && Live(After(acts), 2) && Live(After(acts), 3)
              && After(acts).workers[2].ref == After(acts).workers[3].ref == KEY
  {
    var a0, a1, a2 := Claim(1, KEY, "f"), Tick(STALE_IN_PROGRESS + 1), Claim(2, KEY, "f");
    var a3, a4 := Release(1), Claim(3, KEY, "f");
    AfterSnoc([], a0);
    assert [] + [a0] == [a0];
    AfterSnoc([a0], a1);
    AfterSnoc([a0, a1], a2);
    assert [a0, a1] == [a0] + [a1] && [a0, a1, a2] == [a0, a1] + [a2];
    AfterSnoc([a0, a1, a2], a3);
    AfterSnoc([a0, a1, a2] + [a3], a4);
    var acts := [a0, a1, a2] + [a3] + [a4];
    assert IsWorking(After([a0, a1, a2]), 1) && IsWorking(After([a0, a1, a2]), 2);
    assert Live(After(acts), 2) && Live(After(acts), 3);
  }
}
