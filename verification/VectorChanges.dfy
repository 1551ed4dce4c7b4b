/**
  When the index follows a change: what makes a document count as changed, and what a
  deletion takes away.
 */
module VectorChanges {
  import opened Wrappers
  import opened Text
  import opened VectorDocuments
  import opened VectorIndexer
  import opened VectorIndexRuns
  import IndexConsumer
  import VectorIds

  // ---- Documents are trimmed text -------------------------------------------------------

  ghost predicate AllShown(parts: seq<string>) {
    forall p <- parts :: p != "" && Trimmed(p)
  }

  lemma {:induction false} PartsAreTrimmed(parts: seq<string>)
    ensures AllShown(NonEmptyParts(parts))
  {
    hide Trim, Trimmed;
    if parts != [] {
      PartsAreTrimmed(parts[1..]);
      TrimIsTrimmed(parts[0]);
    }
  }

  // Text joined from such parts starts and ends like them.
  lemma {:induction false} JoinedIsTrimmed(parts: seq<string>)
    requires parts != [] && AllShown(parts)
    ensures Join(parts, " . ") != "" && Trimmed(Join(parts, " . "))
  {
    hide Trim;
    assert parts[0] in parts;
    if |parts| > 1 {
      assert forall p <- parts[1..] :: p in parts;
      JoinedIsTrimmed(parts[1..]);
      var first, rest := parts[0], Join(parts[1..], " . ");
      var all := first + " . " + rest;
      assert all[0] == first[0] && all[|all| - 1] == rest[|rest| - 1];
    }
  }

  lemma DocumentIsTrimmed(e: Event, chunks: seq<Doc>)
    requires HasText(chunks)
    ensures Documents(e, chunks) != [] && Documents(e, chunks)[0].text != "" && Trimmed(Documents(e, chunks)[0].text)
    ensures Documents(e, chunks) == [Doc(EntitySourceType(e), Documents(e, chunks)[0].text)]
  {
    hide Trim, Trimmed, Headings, NonEmptyParts, Join;
    SectionsAre(chunks);
    var sources, sections := SourceTypes(Sanitized(chunks)), Sections(Sanitized(chunks));
    var parts := Headings(e, sources) + [Join(sections, " | ")];
    TitleFirst(e, sources, sections);
    PartsAreTrimmed(parts);
    JoinedIsTrimmed(NonEmptyParts(parts));
  }

  lemma TitleFirst(e: Event, sources: seq<string>, sections: seq<string>)
    ensures NonEmptyParts(Headings(e, sources) + [Join(sections, " | ")]) != []
  {
    hide Trim, Join;
    TitleShows((Headings(e, sources) + [Join(sections, " | ")])[1..]);
    var parts := Headings(e, sources) + [Join(sections, " | ")];
    assert parts == [TITLE] + parts[1..];
  }

  // ---- The content hash ------------------------------------------------------------------

  function HashedText(c: Config, e: Event, sourceType: string, text: string): string {
    Join([Lower(Trim(e.sourceService)), Lower(Trim(e.entityType)), Trim(e.entityId), Lower(Trim(sourceType)),
          Trim(e.contentVersion), Trim(c.model), Decimal(c.dimension)] + [Trim(text)], "|")
  }

  lemma HashIs(c: Config, e: Event, sourceType: string, text: string)
    ensures StableEventContentHash(c, e, sourceType, text) == c.sha(HashedText(c, e, sourceType, text))
  {
    hide Join, Lower, Trim, Decimal;
    var a, b, d, f := Lower(Trim(e.sourceService)), Lower(Trim(e.entityType)), Trim(e.entityId), Lower(Trim(sourceType));
    var g, h, i, j := Trim(e.contentVersion), Trim(c.model), Decimal(c.dimension), Trim(text);
    assert [a, b, d, f, g, h, i] + [j] == [a, b, d, f, g, h, i, j];
  }

  // Two texts of one document get the same hash exactly when they are the same but for
  // blanks around them.
  lemma HashTellsTexts(c: Config, e: Event, sourceType: string, x: string, y: string)
    requires forall a, b :: c.sha(a) == c.sha(b) ==> a == b
    ensures StableEventContentHash(c, e, sourceType, x) == StableEventContentHash(c, e, sourceType, y) <==> Trim(x) == Trim(y)
  {
    hide Join, Lower, Trim, Decimal, StableEventContentHash;
    HashIs(c, e, sourceType, x);
    HashIs(c, e, sourceType, y);
    var front := [Lower(Trim(e.sourceService)), Lower(Trim(e.entityType)), Trim(e.entityId), Lower(Trim(sourceType)),
                  Trim(e.contentVersion), Trim(c.model), Decimal(c.dimension)];
    VectorIds.JoinLast(front, Trim(x));
    VectorIds.JoinLast(front, Trim(y));
    SameEnd(Join(front, "|") + "|", Trim(x), Trim(y));
  }

  lemma SameEnd(front: string, x: string, y: string)
    ensures front + x == front + y <==> x == y
  {
    assert (front + x)[|front|..] == x && (front + y)[|front|..] == y;
  }

  // The same for whole documents of one entity.
  lemma HashTellsDocuments(c: Config, e: Event, x: seq<Doc>, y: seq<Doc>)
    requires forall a, b :: c.sha(a) == c.sha(b) ==> a == b
    requires HasText(x) && HasText(y)
    ensures Documents(e, x) != [] && Documents(e, y) != []
    ensures Prepare(c, e, Documents(e, x)[0], 0).row.contentHash == Prepare(c, e, Documents(e, y)[0], 0).row.contentHash
       <==> Documents(e, x) == Documents(e, y)
  {
    hide HasText, Documents, Trim, Trimmed, StableEventContentHash, EntitySourceType, DocumentText;
    DocumentIsTrimmed(e, x);
    DocumentIsTrimmed(e, y);
    var d, d' := Documents(e, x)[0], Documents(e, y)[0];
    HashTellsTexts(c, e, EntitySourceType(e), DocumentText(d), DocumentText(d'));
    TextsTellDocuments(EntitySourceType(e), d.text, d'.text);
  }

  lemma TextsTellDocuments(source: string, x: string, y: string)
    requires x != "" && y != "" && Trimmed(x) && Trimmed(y)
    ensures Trim(DocumentText(Doc(source, x))) == Trim(DocumentText(Doc(source, y))) <==> x == y
  {
    hide Trim;
    ShownAs(source, x);
    ShownAs(source, y);
    if Trim(source) != "" {
      var front := "Source: " + Trim(source) + "\n";
      SameEnd(front, x, y);
    }
  }

  lemma ShownAs(source: string, x: string)
    requires x != "" && Trimmed(x)
    ensures var s := DocumentText(Doc(source, x));
            s == (if Trim(source) == "" then x else "Source: " + Trim(source) + "\n" + x) && Trim(s) == s
  {
    hide Trim;
    TrimIsTrimmed(x);
    TrimIsTrimmed(source);
    TrimIsTrimmed(DocumentText(Doc(source, x)));
  }

  // ---- The index follows a change -----------------------------------------------------------

  lemma UpsertedIs(c: Config, t: Tables, e: Event, chunks: seq<Doc>, f: Faults, now: int)
    requires HasText(chunks)
    ensures Documents(e, chunks) != []
    ensures var p := Prepare(c, e, Documents(e, chunks)[0], 0);
            Upserted(c, t, e, chunks, f, now) == UpsertedPlan(c, t, [Some(p)], f, now) && p.position == 0
  {
    hide Documents, Trim, DocumentText, UpsertedPlan;
    DocumentsAre(e, chunks);
    assert Documents(e, chunks)[0] in Documents(e, chunks);
    assert Plan(c, e, Documents(e, chunks)) == [Some(Prepare(c, e, Documents(e, chunks)[0], 0))];
  }

  // One document, nothing failing: its vector is there afterwards, and a skipped one
  // leaves everything as it is.
  lemma OneDocumentWell(c: Config, t: Tables, p: Prepared, f: Faults, now: int)
    requires p.position == 0 && AllWell(f) && CacheAgrees(t)
    ensures var t' := UpsertedPlan(c, t, [Some(p)], f, now).0;
            && CacheAgrees(t')
            && p.id in t'.index && t'.index[p.id].contentHash == p.row.contentHash
            && (t'.index == t.index || t'.index == t.index[p.id := VectorOf(p)])
            && (Skips(c, t.state, p, f) ==> t' == t)
  {
    OneDocumentPuts(c, t, p, f, now);
    OneDocument(c, t, p, f, now);
    assert [] + [p] == [p];
    assert EmbedFrom(c, t.state, [Some(p)], 1, [], f, now) == Embedding(t.state, [], Ok);
  }

  lemma SameTwice(c: Config, t: Tables, p: Prepared, f: Faults, now: int, f': Faults, now': int)
    requires p.position == 0 && AllWell(f) && AllWell(f') && CacheAgrees(t)
    ensures var t' := UpsertedPlan(c, t, [Some(p)], f, now).0;
            UpsertedPlan(c, t', [Some(p)], f', now').0.index == t'.index
  {
    hide UpsertedPlan, CacheAgrees;
    var t' := UpsertedPlan(c, t, [Some(p)], f, now).0;
    OneDocumentPuts(c, t, p, f, now);
    OneDocumentWell(c, t, p, f, now);
    OneDocumentPuts(c, t', p, f', now');
    if Skips(c, t.state, p, f) {
      assert Skips(c, t'.state, p, f');
    }
  }

  // After an upsert of an entity, another upsert of it leaves the index as it is exactly
  // when both times its chunks make the same document: no change is missed, and nothing
  // else is written.
  lemma IndexFollowsDocuments(c: Config, t: Tables, e: Event, x: seq<Doc>, f: Faults, now: int,
                              y: seq<Doc>, f': Faults, now': int)
    requires forall a, b :: c.sha(a) == c.sha(b) ==> a == b
    requires CacheAgrees(t) && AllWell(f) && AllWell(f') && HasText(x) && HasText(y)
    ensures var t' := Upserted(c, t, e, x, f, now).0;
            Upserted(c, t', e, y, f', now').0.index == t'.index <==> Documents(e, x) == Documents(e, y)
  {
    hide Documents, HasText, Trim, DocumentText, UpsertedPlan, CacheAgrees, Prepare, AllWell, Upserted;
    var t' := Upserted(c, t, e, x, f, now).0;
    UpsertedIs(c, t, e, x, f, now);
    UpsertedIs(c, t', e, y, f', now');
    var p, q := Prepare(c, e, Documents(e, x)[0], 0), Prepare(c, e, Documents(e, y)[0], 0);
    HashTellsDocuments(c, e, x, y);
    OneDocumentWell(c, t, p, f, now);
    OneDocumentWell(c, t', q, f', now');
    SameIds(c, e, x, y);
    if Documents(e, x) == Documents(e, y) {
      SameTwice(c, t, p, f, now, f', now');
    }
  }

  lemma SameIds(c: Config, e: Event, x: seq<Doc>, y: seq<Doc>)
    requires HasText(x) && HasText(y)
    ensures Documents(e, x) != [] && Documents(e, y) != []
    ensures Prepare(c, e, Documents(e, x)[0], 0).id == Prepare(c, e, Documents(e, y)[0], 0).id
  {
    hide Documents, HasText, Trim, Lower, StableEventVectorID, StableEventContentHash, DocumentText;
    DocumentsShow(e, x);
    DocumentsShow(e, y);
  }

  // ---- Another model ---------------------------------------------------------------------

  lemma HashTellsModels(c: Config, c': Config, e: Event, sourceType: string, text: string)
    requires c'.sha == c.sha && forall a, b :: c.sha(a) == c.sha(b) ==> a == b
    ensures StableEventContentHash(c, e, sourceType, text) == StableEventContentHash(c', e, sourceType, text)
       <==> Trim(c.model) == Trim(c'.model) && c.dimension == c'.dimension
  {
    hide Join, Lower, Trim, Decimal, StableEventContentHash;
    HashIs(c, e, sourceType, text);
    HashIs(c', e, sourceType, text);
    var front := [Lower(Trim(e.sourceService)), Lower(Trim(e.entityType)), Trim(e.entityId), Lower(Trim(sourceType)),
                  Trim(e.contentVersion)];
    var m, m', n, n' := Trim(c.model), Trim(c'.model), Decimal(c.dimension), Decimal(c'.dimension);
    assert front + [m] + [n] == [Lower(Trim(e.sourceService)), Lower(Trim(e.entityType)), Trim(e.entityId),
                                 Lower(Trim(sourceType)), Trim(e.contentVersion), m, n];
    assert front + [m'] + [n'] == [Lower(Trim(e.sourceService)), Lower(Trim(e.entityType)), Trim(e.entityId),
                                   Lower(Trim(sourceType)), Trim(e.contentVersion), m', n'];
    LastThree(front, m, n, Trim(text));
    LastThree(front, m', n', Trim(text));
    SameThree(Join(front, "|") + "|", m, c.dimension, m', c'.dimension, Trim(text));
  }

  lemma LastThree(front: seq<string>, x: string, y: string, z: string)
    requires front != []
    ensures Join(front + [x] + [y] + [z], "|") == (Join(front, "|") + "|") + (x + "|" + (y + ("|" + z)))
  {
    hide Join;
    VectorIds.JoinLast(front, x);
    VectorIds.JoinLast(front + [x], y);
    VectorIds.JoinLast(front + [x] + [y], z);
  }

  lemma SameThree(front: string, m: string, i: nat, m': string, j: nat, text: string)
    ensures front + (m + "|" + (Decimal(i) + ("|" + text))) == front + (m' + "|" + (Decimal(j) + ("|" + text)))
       <==> m == m' && i == j
  {
    hide Decimal;
    var x, y := m + "|" + Decimal(i), m' + "|" + Decimal(j);
    assert m + "|" + (Decimal(i) + ("|" + text)) == x + ("|" + text);
    assert m' + "|" + (Decimal(j) + ("|" + text)) == y + ("|" + text);
    SameEnd(front, x + ("|" + text), y + ("|" + text));
    assert (x + ("|" + text))[..|x|] == x && (y + ("|" + text))[..|y|] == y;
    if x + ("|" + text) == y + ("|" + text) {
      DecimalRoundTrip(i);
      DecimalRoundTrip(j);
      VectorIds.LastPart(m, m', Decimal(i), Decimal(j));
      assert |m| == |m'| && x[..|m|] == m && y[..|m'|] == m';
    }
  }

  // The same document under another model or dimension is embedded again: its vector is
  // replaced, unless the names of the models differ in blanks only.
  lemma ModelChangeIsIndexed(c: Config, c': Config, t: Tables, e: Event, x: seq<Doc>, f: Faults, now: int,
                             f': Faults, now': int)
    requires c'.sha == c.sha && forall a, b :: c.sha(a) == c.sha(b) ==> a == b
    requires CacheAgrees(t) && AllWell(f) && AllWell(f') && HasText(x)
    requires Trim(c.model) != Trim(c'.model) || c.dimension != c'.dimension
    ensures var t' := Upserted(c, t, e, x, f, now).0;
            Upserted(c', t', e, x, f', now').0.index != t'.index
  {
    hide Documents, HasText, Trim, DocumentText, UpsertedPlan, CacheAgrees, AllWell, Upserted, StableEventContentHash;
    var t' := Upserted(c, t, e, x, f, now).0;
    UpsertedIs(c, t, e, x, f, now);
    UpsertedIs(c', t', e, x, f', now');
    var d := Documents(e, x)[0];
    OneDocumentWell(c, t, Prepare(c, e, d, 0), f, now);
    OneDocumentWell(c', t', Prepare(c', e, d, 0), f', now');
    HashTellsModels(c, c', e, d.sourceType, DocumentText(d));
  }

  // ---- A model named with blanks -----------------------------------------------------------

  // Rows name the model without the blanks around it.
  ghost predicate RowsNameModel(c: Config, state: map<string, StateRow>) {
    forall id <- state :: state[id].embeddingModel == Trim(c.model)
  }

  lemma MarkKeepsModel(c: Config, state: map<string, StateRow>, p: Prepared, outcome: Call, now: int)
    requires RowsNameModel(c, state) && p.row.embeddingModel == Trim(c.model)
    ensures RowsNameModel(c, Mark(state, p, outcome, now))
  {
    hide Trim;
  }

  lemma OneDocumentKeepsModel(c: Config, t: Tables, p: Prepared, f: Faults, now: int)
    requires RowsNameModel(c, t.state) && p.row.embeddingModel == Trim(c.model) && p.position == 0
    ensures RowsNameModel(c, UpsertedPlan(c, t, [Some(p)], f, now).0.state)
  {
    hide Trim, RowsNameModel, Mark;
    MarkKeepsModel(c, t.state, p, f.embed(0), now);
    MarkKeepsModel(c, t.state, p, f.upsert, now);
    assert EmbedFrom(c, t.state, [Some(p)], 1, [], f, now) == Embedding(t.state, [], Ok);
    assert EmbedFrom(c, t.state, [Some(p)], 1, [p], f, now) == Embedding(t.state, [p], Ok);
    assert [] + [p] == [p] && [p][..0] == [];
    assert MarkAll(t.state, [], f.upsert, f, now) == t.state;
    assert MarkAll(t.state, [p], f.upsert, f, now) == if f.writeLost(0) then t.state else Mark(t.state, p, f.upsert, now);
  }

  lemma HandlingKeepsModel(c: Config, t: Tables, r: Request)
    requires RowsNameModel(c, t.state)
    ensures RowsNameModel(c, Handled(c, t, r.e, r.chunks, r.f, r.now).0.state)
  {
    hide IsUuidText, Trim, Lower, Documents, DocumentText, EntitySourceType, UpsertedPlan, HasText;
    if r.chunks.Some? {
      if HasText(r.chunks.value) {
        UpsertedIs(c, t, r.e, r.chunks.value, r.f, r.now);
        OneDocumentKeepsModel(c, t, Prepare(c, r.e, Documents(r.e, r.chunks.value)[0], 0), r.f, r.now);
      } else {
        DocumentsShow(r.e, r.chunks.value);
        NothingToDo(c, t, r.e, r.chunks.value, r.f, r.now);
      }
    }
  }

  lemma NothingToDo(c: Config, t: Tables, e: Event, chunks: seq<Doc>, f: Faults, now: int)
    requires Documents(e, chunks) == []
    ensures Upserted(c, t, e, chunks, f, now) == (t, Ok)
  {
    hide Documents;
    assert Plan(c, e, []) == [];
  }

  lemma {:induction false} EveryRunNamesModel(c: Config, requests: seq<Request>)
    ensures RowsNameModel(c, After(c, requests).state)
  {
    hide RowsNameModel, Handled;
    if requests == [] {
      NoRows(c);
    } else {
      EveryRunNamesModel(c, requests[..|requests| - 1]);
      HandlingKeepsModel(c, After(c, requests[..|requests| - 1]), requests[|requests| - 1]);
    }
  }

  lemma NoRows(c: Config)
    ensures RowsNameModel(c, After(c, []).state)
  {
  }

  // After any run and an upsert that works, the same request is skipped exactly when the
  // model is configured without blanks around its name; with them nothing is ever skipped.
  lemma RepeatIsSkippedIff(c: Config, requests: seq<Request>, e: Event, chunks: seq<Doc>, f: Faults, now: int, f': Faults)
    requires HasText(chunks) && AllWell(f) && AllWell(f')
    ensures Documents(e, chunks) != []
    ensures var p := Prepare(c, e, Documents(e, chunks)[0], 0);
            Skips(c, Upserted(c, After(c, requests), e, chunks, f, now).0.state, p, f') <==> Trim(c.model) == c.model
  {
    hide HasText, Documents, Trim, Lower, DocumentText, After, UpsertedPlan, StableEventContentHash, StableEventVectorID;
    var t := After(c, requests);
    EveryRunNamesModel(c, requests);
    UpsertedIs(c, t, e, chunks, f, now);
    var p := Prepare(c, e, Documents(e, chunks)[0], 0);
    if Skips(c, t.state, p, f) {
      SkippedLeavesAll(c, t, p, f, now);
    } else {
      MarkedOnce(c, t, p, f, now);
    }
  }

  lemma SkippedLeavesAll(c: Config, t: Tables, p: Prepared, f: Faults, now: int)
    requires p.position == 0 && AllWell(f) && Skips(c, t.state, p, f)
    ensures UpsertedPlan(c, t, [Some(p)], f, now).0 == t
  {
    assert EmbedFrom(c, t.state, [Some(p)], 1, [], f, now) == Embedding(t.state, [], Ok);
  }

  // ---- What a deletion takes away ---------------------------------------------------------

  // Two requests name one entity: the same tenant and type in any case, and the same id,
  // with blanks around them or not. The version plays no part.
  predicate SameEntity(e: Event, o: Event) {
    Fold(e.tenantId) == Fold(o.tenantId) && Fold(e.entityType) == Fold(o.entityType) && Trim(e.entityId) == Trim(o.entityId)
  }

  lemma DeletionMatches(c: Config, t: Tables, r: Request, id: string, v: Vector, d: Request)
    requires Writes(c, t, r, id, v)
    requires IsUuidText(Fold(d.e.tenantId)) && Trim(d.e.operation) == "delete" && d.f.delete.Ok?
    ensures Clears(d, v) <==> SameEntity(r.e, d.e)
  {
    hide Trim, IsUuidText, Documents, DocumentText, Puts;
  }

  lemma DeletionWritesNothing(c: Config, t: Tables, d: Request, id: string)
    requires Trim(d.e.operation) == "delete"
    ensures !WritesAny(c, t, d, id)
  {
  }

  // After any run, a deletion that works leaves exactly the vectors that were there and
  // were written for other entities; those of any version of its own entity are gone.
  lemma DeletionTakesTheEntity(c: Config, requests: seq<Request>, d: Request, id: string, v: Vector)
    requires IsUuidText(Fold(d.e.tenantId)) && Trim(d.e.operation) == "delete" && d.f.delete.Ok?
    ensures HoldsVector(After(c, requests + [d]), id, v)
       <==> exists n: nat :: WrittenLast(c, requests, n, id, v) && !SameEntity(requests[n].e, d.e)
  {
    hide Trim, Fold, IsUuidText, Writes, Clears, HoldsVector, SameEntity, Handled;
    var t := After(c, requests);
    assert (requests + [d])[..|requests|] == requests;
    HandledIndex(c, t, d, id, v);
    DeletionWritesNothing(c, t, d, id);
    assert Writes(c, t, d, id, v) ==> WritesAny(c, t, d, id);
    IndexHoldsIff(c, requests, id, v);
    forall n: nat | WrittenLast(c, requests, n, id, v) ensures Clears(d, v) <==> SameEntity(requests[n].e, d.e) {
      DeletionMatches(c, After(c, requests[..n]), requests[n], id, v, d);
    }
    assert HoldsVector(After(c, requests + [d]), id, v) <==> HoldsVector(t, id, v) && !Clears(d, v);
  }

  // ---- What a row says after a call ---------------------------------------------------------

  // The row of a document after a call: how the call ended; when to try again and one
  // attempt more, exactly after a rate limit; and of a failure the first 500 characters.
  // A failure leaves the row of an earlier version of the document's content as it is.
  lemma RowTellsOutcome(state: map<string, StateRow>, p: Prepared, outcome: Call, now: int)
    ensures var s := Mark(state, p, outcome, now);
            && p.id in s && s.Keys == state.Keys + {p.id}
            && (forall id <- state | id != p.id :: s[id] == state[id])
            && (s[p.id].status == Indexed <==> outcome.Ok?)
            && (s[p.id].status == RateLimited <==> outcome.Limited?)
            && s[p.id].attemptCount == (if p.id in state then state[p.id].attemptCount else 0) + (if outcome.Limited? then 1 else 0)
            && s[p.id].nextRetry == (if outcome.Limited? then Some(outcome.retryAt)
                                     else if p.id in state then state[p.id].nextRetry else None)
            && |s[p.id].errorMessage| <= 500
            && (outcome.Ok? ==> s[p.id].errorMessage == "")
            && (!outcome.Ok? ==> s[p.id].errorMessage <= outcome.cause
                                 && (|outcome.cause| <= 500 ==> s[p.id].errorMessage == outcome.cause)
                                 && (|outcome.cause| > 500 ==> |s[p.id].errorMessage| == 500))
            && s[p.id].contentHash == (if p.id in state && !outcome.Ok? then state[p.id] else p.row).contentHash
            && s[p.id].lastEventId == p.row.lastEventId
            && s[p.id].lastIndexed == (if p.id in state && !outcome.Ok? then state[p.id].lastIndexed else now)
  {
  }

  // After an upsert that nothing went wrong with and that was not skipped, the row of the
  // document names its entity, its event and what it was embedded with, says that it is
  // indexed since now, and keeps the count of attempts.
  lemma UpsertLeavesRow(c: Config, t: Tables, e: Event, chunks: seq<Doc>, f: Faults, now: int)
    requires HasText(chunks) && AllWell(f)
    ensures Documents(e, chunks) != []
    ensures var p := Prepare(c, e, Documents(e, chunks)[0], 0);
            !Skips(c, t.state, p, f) ==>
              var id := StableEventVectorID(c, e, EntitySourceType(e), 0);
              var t' := Upserted(c, t, e, chunks, f, now).0;
              var known := id in t.state;
              && t'.state.Keys == t.state.Keys + {id}
              && (forall other <- t.state | other != id :: t'.state[other] == t.state[other])
              && t'.state[id] == StateRow(Fold(e.tenantId), Trim(e.sourceService), Fold(e.entityType), Trim(e.entityId),
                                          EntitySourceType(e), p.row.contentHash, Trim(e.contentVersion), c.namespace,
                                          Trim(c.model), c.dimension, Trim(e.eventId), Indexed, "",
                                          if known then t.state[id].attemptCount else 0,
                                          if known then t.state[id].nextRetry else None, now)
              && t'.index == t.index[id := Vector(Fold(e.tenantId), Fold(e.entityType), Trim(e.entityId), p.row.contentHash)]
  {
    hide Documents, Trim, Lower, DocumentText, HasText, StableEventVectorID, StableEventContentHash, EntitySourceType;
    UpsertedIs(c, t, e, chunks, f, now);
    DocumentsShow(e, chunks);
    SourceTypeIsTrimmed(e);
    var p := Prepare(c, e, Documents(e, chunks)[0], 0);
    if !Skips(c, t.state, p, f) {
      MarkedOnce(c, t, p, f, now);
    }
  }

  lemma SourceTypeIsTrimmed(e: Event)
    ensures Trim(EntitySourceType(e)) == EntitySourceType(e)
  {
    FoldTwice(e.entityType);
    TrimIsTrimmed("vector_event_summary");
  }

  lemma MarkedOnce(c: Config, t: Tables, p: Prepared, f: Faults, now: int)
    requires p.position == 0 && AllWell(f) && !Skips(c, t.state, p, f)
    ensures UpsertedPlan(c, t, [Some(p)], f, now).0 == Tables(MarkUpserted(t.state, p, now), t.index[p.id := VectorOf(p)])
  {
    OneDocumentPuts(c, t, p, f, now);
    assert [] + [p] == [p] && [p][..0] == [];
    assert EmbedFrom(c, t.state, [Some(p)], 1, [p], f, now) == Embedding(t.state, [p], Ok);
    assert MarkAll(t.state, [], f.upsert, f, now) == t.state;
    assert MarkAll(t.state, [p], f.upsert, f, now) == MarkUpserted(t.state, p, now);
  }

  // ---- Accepted requests ---------------------------------------------------------------

  // What the consumer accepts the indexer carries out: a deletion is tried, and an upsert
  // works on what the source service says, failing at once only when that is unavailable.
  lemma AcceptedIsCarriedOut(c: Config, t: Tables, e: Event, chunks: Option<seq<Doc>>, f: Faults, now: int)
    requires IndexConsumer.Complete(e)
    ensures Trim(e.operation) == "delete" ==> Handled(c, t, e, chunks, f, now) == Deleted(t, e, f) && HasDeleteKey(e)
    ensures Trim(e.operation) == "upsert" ==>
              Handled(c, t, e, chunks, f, now) ==
              if chunks.Some? then Upserted(c, t, e, chunks.value, f, now) else (t, Broken("source unavailable"))
  {
    hide Trim, IsUuidText, IndexConsumer.Filled, Upserted, Deleted, Lower;
    VectorIds.LowerUuid(Trim(e.tenantId));
    UuidIsNotEmpty(Trim(e.tenantId));
    IndexConsumer.FilledIff(e.entityType);
    IndexConsumer.FilledIff(e.entityId);
  }

  // A retry rebuilt from the row of an accepted request is accepted itself, and is an upsert.
  lemma RetryIsAccepted(c: Config, e: Event, d: Doc)
    requires IndexConsumer.Complete(e)
    ensures var back := RetryEvent(Prepare(c, e, d, 0).row);
            IndexConsumer.Complete(back) && Trim(back.operation) == "upsert"
  {
    hide Trim, Lower, IsUuidText, IndexConsumer.Filled, StableEventContentHash, StableEventVectorID;
    var back := RetryEvent(Prepare(c, e, d, 0).row);
    VectorIds.LowerUuid(Trim(e.tenantId));
    FoldTwice(e.tenantId);
    TrimIsTrimmed(e.eventId);
    TrimIsTrimmed(e.sourceService);
    TrimIsTrimmed(e.entityId);
    FoldTwice(e.entityType);
    StillFilled(e.eventId, back.eventId);
    StillFilled(e.sourceService, back.sourceService);
    StillFilled(e.entityId, back.entityId);
    StillFilled(e.entityType, back.entityType);
    OwnWords();
  }

  lemma OwnWords()
    ensures Trim("upsert") == "upsert" && Trim("vector.index.requested") == "vector.index.requested"
  {
    TrimIsTrimmed("upsert");
    TrimIsTrimmed("vector.index.requested");
  }

  lemma StillFilled(s: string, t: string)
    requires IndexConsumer.Filled(s) && (t == Trim(s) || t == Fold(s))
    ensures IndexConsumer.Filled(t)
  {
    hide Trim, IndexConsumer.Filled;
    IndexConsumer.FilledIff(s);
    IndexConsumer.FilledIff(t);
    TrimIsTrimmed(s);
    FoldTwice(s);
    VectorIds.FoldedLength(s);
  }

  // Values that say nothing all read alike in a document: nothing, a dash, and "null" or
  // "<nil>" in any case.
  lemma AbsentIff(s: string)
    ensures SafeOptional(s) == "Not available" <==>
            Trim(s) in {"", "-", "Not available"} || Fold(s) in {"null", "<nil>"}
    ensures SafeOptional(s) != "Not available" ==> SafeOptional(s) == Trim(s)
  {
    hide Trim;
  }

  lemma UuidIsNotEmpty(s: string)
    requires IsUuidText(s)
    ensures s != ""
  {
  }
}
