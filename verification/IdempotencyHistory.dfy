/**
  A key told from what has happened to it: the answer to a request follows from the last
  claim, release or commit on its key, and from the clock.
 */
module IdempotencyHistory {
  import opened Wrappers
  import opened IdempotencyStore
  import opened IdempotencyRuns

  // What has last become of a key, and the fingerprint it was first claimed under.
  datatype Story =
    | Unknown
    | Claimed(fingerprint: string, at: int)
    | Freed(fingerprint: string)
    | Stored(fingerprint: string, envelopeId: Uuid)

  // The answer to a request that comes now: another fingerprint is refused, a stored
  // envelope is named, a free key is handed out, and one that is claimed is handed out
  // again when more than ninety seconds have passed.
  function AnswerTo(story: Story, fingerprint: string, now: int): ClaimResult {
    if story.Unknown? then Proceed
    else if story.fingerprint != fingerprint then FingerprintMismatch
    else match story
      case Stored(_, id) => Duplicate(id)
      case Freed(_) => Proceed
      case Claimed(_, t) => if now - t > 90_000_000 then Proceed else InFlight
  }

  // A request that is answered to proceed claims the key; a commit stores, and a release
  // frees what is claimed. Who claimed it last plays no part.
  ghost function StoryOf(acts: seq<Action>, ref: KeyRef): Story {
    if acts == [] then Unknown
    else
      var init, a := acts[..|acts| - 1], acts[|acts| - 1];
      var s, story := After(init), StoryOf(init, ref);
      match a
      case Tick(_) => story
      case Claim(w, r, fp) =>
        if r == ref && w !in s.workers && AnswerTo(story, fp, s.now).Proceed? then Claimed(fp, s.now) else story
      case Commit(w, id, _, _) =>
        if IsWorking(s, w) && s.workers[w].ref == ref && id !in s.db.envelopes && !story.Unknown?
        then Stored(story.fingerprint, id) else story
      case Release(w) =>
        if IsWorking(s, w) && s.workers[w].ref == ref && story.Claimed? then Freed(story.fingerprint) else story
  }

  // The row of the key says the same.
  ghost predicate RowTells(db: Tables, ref: KeyRef, story: Story) {
    if story.Unknown? then ref !in db.keys
    else
      && ref in db.keys && db.keys[ref].fingerprint == story.fingerprint
      && var row := db.keys[ref];
         match story
         case Claimed(_, t) => row.status == InProgress && row.firstEnvelope == None && row.lastSeen == t
         case Freed(_) => row.status == Reserved && row.firstEnvelope == None
         case Stored(_, id) => row.status == Completed && row.firstEnvelope == Some(id)
  }

  lemma StoryAnswers(db: Tables, ref: KeyRef, story: Story, fp: string, now: int)
    requires ref.key != "" && RowTells(db, ref, story)
    ensures Persisted(db, ref, fp, now).1 == AnswerTo(story, fp, now)
    ensures RowTells(Persisted(db, ref, fp, now).0, ref, if AnswerTo(story, fp, now).Proceed? then Claimed(fp, now) else story)
  {
  }

  lemma OtherKeysKeep(db: Tables, other: KeyRef, ref: KeyRef, story: Story, fp: string, now: int)
    requires other != ref && RowTells(db, ref, story)
    ensures RowTells(Persisted(db, other, fp, now).0, ref, story)
  {
  }

  lemma CommitTells(s: State, a: Action, ref: KeyRef, story: Story)
    requires Inv(s) && a.Commit? && ref.key != "" && RowTells(s.db, ref, story)
    ensures RowTells(Step(s, a).db, ref,
                     if IsWorking(s, a.w) && s.workers[a.w].ref == ref && a.id !in s.db.envelopes && !story.Unknown?
                     then Stored(story.fingerprint, a.id) else story)
  {
  }

  lemma ReleaseTells(s: State, a: Action, ref: KeyRef, story: Story)
    requires Inv(s) && a.Release? && ref.key != "" && RowTells(s.db, ref, story)
    ensures RowTells(Step(s, a).db, ref,
                     if IsWorking(s, a.w) && s.workers[a.w].ref == ref && story.Claimed? then Freed(story.fingerprint) else story)
  {
  }

  lemma {:induction false} HistoryTellsRow(acts: seq<Action>, ref: KeyRef)
    requires ref.key != ""
    ensures RowTells(After(acts).db, ref, StoryOf(acts, ref))
  {
    hide RowTells, Inv, Persisted, Released, Saved, AnswerTo;
    if acts == [] {
      NothingKnown(ref);
    } else {
      var init, a := acts[..|acts| - 1], acts[|acts| - 1];
      var s, story := After(init), StoryOf(init, ref);
      HistoryTellsRow(init, ref);
      EveryRunKeepsInvariant(init);
      match a
      case Tick(_) =>
      case Claim(w, r, fp) =>
        if r == ref {
          StoryAnswers(s.db, ref, story, fp, s.now);
        } else {
          OtherKeysKeep(s.db, r, ref, story, fp, s.now);
        }
      case Commit(_, _, _, _) => CommitTells(s, a, ref, story);
      case Release(_) => ReleaseTells(s, a, ref, story);
    }
  }

  lemma NothingKnown(ref: KeyRef)
    ensures RowTells(After([]).db, ref, Unknown)
  {
  }

  // After any run, whatever the timing: a request with a key is answered as the history
  // of that key demands, and one without a key always goes ahead.
  lemma AnswerFollowsHistory(acts: seq<Action>, ref: KeyRef, fp: string)
    ensures var s := After(acts);
            Persisted(s.db, ref, fp, s.now).1 == if ref.key == "" then Proceed else AnswerTo(StoryOf(acts, ref), fp, s.now)
  {
    hide RowTells;
    if ref.key != "" {
      HistoryTellsRow(acts, ref);
      StoryAnswers(After(acts).db, ref, StoryOf(acts, ref), fp, After(acts).now);
    }
  }

  // A key that has an envelope is never handed out, in whatever state its row is.
  lemma StoredKeyIsNotHandedOut(db: Tables, ref: KeyRef, fp: string, now: int)
    requires ref.key != "" && ref in db.keys && db.keys[ref].firstEnvelope.Some?
    ensures !Persisted(db, ref, fp, now).1.Proceed?
  {
  }

  // ---- Bookkeeping --------------------------------------------------------------------

  // Requests of the run that met this key under another fingerprint or already stored.
  ghost function Conflicts(acts: seq<Action>, ref: KeyRef): nat {
    if acts == [] then 0
    else
      var init, a := acts[..|acts| - 1], acts[|acts| - 1];
      Conflicts(init, ref) + if Conflicting(init, a, ref) then 1 else 0
  }

  ghost predicate Conflicting(acts: seq<Action>, a: Action, ref: KeyRef) {
    && a.Claim? && a.ref == ref && a.w !in After(acts).workers
    && var r := AnswerTo(StoryOf(acts, ref), a.fingerprint, After(acts).now);
       r.FingerprintMismatch? || r.Duplicate?
  }

  lemma StepCounts(s: State, a: Action, ref: KeyRef)
    requires ref.key != "" && Inv(s)
    ensures ref in s.db.keys ==> ref in Step(s, a).db.keys
    ensures ref in Step(s, a).db.keys ==>
              Step(s, a).db.keys[ref].conflictCount ==
              if ref !in s.db.keys then 0
              else if a.Claim? && a.ref == ref && a.w !in s.workers
                      && (Persisted(s.db, ref, a.fingerprint, s.now).1.FingerprintMismatch?
                          || Persisted(s.db, ref, a.fingerprint, s.now).1.Duplicate?)
              then s.db.keys[ref].conflictCount + 1 else s.db.keys[ref].conflictCount
  {
    hide RowAgrees, OutboxMatches, EnvelopesAgree, WorkersAgree;
  }

  // The row counts exactly those.
  lemma {:induction false} ConflictsAreCounted(acts: seq<Action>, ref: KeyRef)
    requires ref.key != ""
    ensures ref !in After(acts).db.keys ==> Conflicts(acts, ref) == 0
    ensures ref in After(acts).db.keys ==> After(acts).db.keys[ref].conflictCount == Conflicts(acts, ref)
  {
    hide Inv, Persisted, AnswerTo, StoryOf;
    if acts != [] {
      var init, a := acts[..|acts| - 1], acts[|acts| - 1];
      ConflictsAreCounted(init, ref);
      EveryRunKeepsInvariant(init);
      StepCounts(After(init), a, ref);
      if a.Claim? {
        AnswerFollowsHistory(init, ref, a.fingerprint);
        if ref !in After(init).db.keys {
          UnknownProceeds(init, a.fingerprint, ref);
        }
      }
    }
  }

  lemma UnknownProceeds(acts: seq<Action>, fp: string, ref: KeyRef)
    requires ref.key != "" && ref !in After(acts).db.keys
    ensures AnswerTo(StoryOf(acts, ref), fp, After(acts).now).Proceed?
  {
    HistoryTellsRow(acts, ref);
  }
}
