/** The state table as a cache of the vector index, over whole runs of requests. */
module VectorIndexRuns {
  import opened Wrappers
  import opened Text
  import opened VectorDocuments
  import opened VectorIndexer

  function VectorOfRow(row: StateRow): Vector {
    Vector(row.tenantId, row.entityType, row.entityId, row.contentHash)
  }

  // A row marked indexed describes the vector that the index holds under its id.
  ghost predicate CacheAgrees(t: Tables) {
    forall id <- t.state | t.state[id].status == Indexed ::
      id in t.index && t.index[id] == VectorOfRow(t.state[id])
  }

  datatype Request = Request(e: Event, chunks: Option<seq<Doc>>, f: Faults, now: int)

  // Document i, once embedded, gets to the index: the call succeeds, or fails
  // when this vector has landed already.
  predicate Reaches(f: Faults, i: nat) {
    f.embed(i).Ok? && (f.upsert.Ok? || f.landed(i))
  }

  // The state write is applied where a vector reached the index or was deleted, and
  // a deletion names its entity. Marks after a failure may be lost.
  predicate Sound(r: Request) {
    if Trim(r.e.operation) == "delete" then r.f.delete.Ok? ==> HasDeleteKey(r.e) && !r.f.writeLost(0)
    else r.f.writeLost(0) ==> !Reaches(r.f, 0)
  }

  ghost function After(c: Config, requests: seq<Request>): Tables {
    if requests == [] then Tables(map[], map[])
    else
      var n := |requests| - 1;
      var r := requests[n];
      Handled(c, After(c, requests[..n]), r.e, r.chunks, r.f, r.now).0
  }

  // ---- Agreement is kept -------------------------------------------------------------

  lemma {:induction false} EmbedEffect(c: Config, state: map<string, StateRow>, plan: seq<Option<Prepared>>, i: nat,
                                       changed: seq<Prepared>, f: Faults, now: int)
    requires i <= |plan|
    ensures var r := EmbedFrom(c, state, plan, i, changed, f, now);
            r.state == state || (!r.outcome.Ok? && exists p :: r.state == Mark(state, p, r.outcome, now))
    decreases |plan| - i
  {
    if i < |plan| {
      EmbedEffect(c, state, plan, i + 1, changed, f, now);
      if plan[i].Some? {
        EmbedEffect(c, state, plan, i + 1, changed + [plan[i].value], f, now);
      }
    }
  }

  lemma MarkEffect(state: map<string, StateRow>, p: Prepared, outcome: Call, now: int)
    ensures var s := Mark(state, p, outcome, now);
            && p.id in s && s == state[p.id := s[p.id]]
            && (s[p.id].status == Indexed <==> outcome.Ok?)
            && (outcome.Ok? ==> VectorOfRow(s[p.id]) == VectorOf(p))
  {
  }

  // What is changed was embedded.
  lemma {:induction false} EmbedSucceeded(c: Config, state: map<string, StateRow>, plan: seq<Option<Prepared>>, i: nat,
                                          changed: seq<Prepared>, f: Faults, now: int)
    requires i <= |plan| && forall j :: 0 <= j < |plan| && plan[j].Some? ==> plan[j].value.position == j
    requires forall p <- changed :: p.position < |plan| && f.embed(p.position).Ok?
    ensures forall p <- EmbedFrom(c, state, plan, i, changed, f, now).changed ::
              p.position < |plan| && f.embed(p.position).Ok?
    decreases |plan| - i
  {
    if i < |plan| {
      EmbedSucceeded(c, state, plan, i + 1, changed, f, now);
      if plan[i].Some? && f.embed(i).Ok? {
        EmbedSucceeded(c, state, plan, i + 1, changed + [plan[i].value], f, now);
      }
    }
  }

  // Vectors and marks go hand in hand: each vector that may have changed has
  // its row rewritten, as indexed only when the call succeeded.
  lemma {:induction false} PutAndMarkAgree(t: Tables, ps: seq<Prepared>, f: Faults, now: int)
    requires CacheAgrees(t)
    requires forall p <- ps :: f.embed(p.position).Ok? && (f.writeLost(p.position) ==> !Reaches(f, p.position))
    ensures CacheAgrees(Tables(MarkAll(t.state, ps, f.upsert, f, now), Put(t.index, ps, f)))
  {
    if ps != [] {
      var p := ps[|ps| - 1];
      var init := ps[..|ps| - 1];
      assert p in ps && forall q <- init :: q in ps;
      PutAndMarkAgree(t, init, f, now);
      MarkEffect(MarkAll(t.state, init, f.upsert, f, now), p, f.upsert, now);
    }
  }

  // Any number of documents: it is enough that no write is lost whose vector got
  // to the index.
  lemma PlanKeepsAgreement(c: Config, t: Tables, plan: seq<Option<Prepared>>, f: Faults, now: int)
    requires CacheAgrees(t) && forall j :: 0 <= j < |plan| && plan[j].Some? ==> plan[j].value.position == j
    requires forall i :: 0 <= i < |plan| && f.writeLost(i) ==> !Reaches(f, i)
    ensures CacheAgrees(UpsertedPlan(c, t, plan, f, now).0)
  {
    var r := EmbedFrom(c, t.state, plan, 0, [], f, now);
    EmbedEffect(c, t.state, plan, 0, [], f, now);
    EmbedSucceeded(c, t.state, plan, 0, [], f, now);
    if !r.outcome.Ok? {
      if r.state != t.state {
        var p :| r.state == Mark(t.state, p, r.outcome, now);
        MarkEffect(t.state, p, r.outcome, now);
      }
    } else if r.changed != [] {
      PutAndMarkAgree(t, r.changed, f, now);
    }
  }

  lemma UpsertKeepsAgreement(c: Config, t: Tables, e: Event, chunks: seq<Doc>, f: Faults, now: int)
    requires CacheAgrees(t) && (f.writeLost(0) ==> !Reaches(f, 0))
    ensures CacheAgrees(Upserted(c, t, e, chunks, f, now).0)
  {
    hide Documents, DocumentText, Trim, EntitySourceType, UpsertedPlan, CacheAgrees, Prepare;
    DocumentsAre(e, chunks);
    PlanKeepsAgreement(c, t, Plan(c, e, Documents(e, chunks)), f, now);
  }

  lemma HandlingKeepsAgreement(c: Config, t: Tables, r: Request)
    requires CacheAgrees(t) && Sound(r)
    ensures CacheAgrees(Handled(c, t, r.e, r.chunks, r.f, r.now).0)
  {
    hide IsUuidText, Trim, Lower, Documents;
    if r.chunks.Some? && Trim(r.e.operation) == "upsert" {
      UpsertKeepsAgreement(c, t, r.e, r.chunks.value, r.f, r.now);
    }
  }

  // In every run of upserts, deletes and retries, with lookups, embeddings,
  // upserts and deletes failing anywhere and requests cancelled, the table never
  // vouches for a vector that the index does not hold.
  lemma {:induction false} EveryRunAgrees(c: Config, requests: seq<Request>)
    requires forall r <- requests :: Sound(r)
    ensures CacheAgrees(After(c, requests))
  {
    if requests != [] {
      var n := |requests| - 1;
      EveryRunAgrees(c, requests[..n]);
      HandlingKeepsAgreement(c, After(c, requests[..n]), requests[n]);
    }
  }

  // ---- Skipping is sound, and success means up to date --------------------------------

  // A skipped document is in the index, under the id and with the hash that
  // embedding it again would give.
  lemma SkippedIsInIndex(c: Config, requests: seq<Request>, e: Event, d: Doc, position: nat, f: Faults)
    requires forall r <- requests :: Sound(r)
    requires Skips(c, After(c, requests).state, Prepare(c, e, d, position), f)
    ensures var p := Prepare(c, e, d, position);
            p.id in After(c, requests).index && After(c, requests).index[p.id].contentHash == VectorOf(p).contentHash
  {
    EveryRunAgrees(c, requests);
  }

  ghost predicate IdsDiffer(plan: seq<Option<Prepared>>) {
    forall i, j :: 0 <= i < j < |plan| && plan[i].Some? && plan[j].Some? ==> plan[i].value.id != plan[j].value.id
  }

  ghost predicate Planned(plan: seq<Option<Prepared>>, ps: seq<Prepared>) {
    forall k :: 0 <= k < |ps| ==> ps[k].position < |plan| && plan[ps[k].position] == Some(ps[k])
  }

  // When every embedding succeeds, each document is skipped or among the changed.
  lemma {:induction false} EmbedCovers(c: Config, state: map<string, StateRow>, plan: seq<Option<Prepared>>, i: nat,
                                       changed: seq<Prepared>, f: Faults, now: int)
    requires i <= |plan| && EmbedFrom(c, state, plan, i, changed, f, now).outcome.Ok?
    requires forall j :: 0 <= j < |plan| && plan[j].Some? ==> plan[j].value.position == j
    requires Planned(plan, changed)
    ensures var r := EmbedFrom(c, state, plan, i, changed, f, now).changed;
            && changed <= r && Planned(plan, r)
            && forall j :: i <= j < |plan| && plan[j].Some? ==> Skips(c, state, plan[j].value, f) || plan[j].value in r
    decreases |plan| - i
  {
    if i < |plan| {
      if plan[i].None? || Skips(c, state, plan[i].value, f) {
        EmbedCovers(c, state, plan, i + 1, changed, f, now);
      } else {
        EmbedCovers(c, state, plan, i + 1, changed + [plan[i].value], f, now);
        assert (changed + [plan[i].value])[|changed|] == plan[i].value;
      }
    }
  }

  lemma {:induction false} PutGives(index: map<string, Vector>, ps: seq<Prepared>, f: Faults)
    requires f.upsert.Ok?
    ensures forall id :: (forall p <- ps :: p.id != id) ==>
              (id in Put(index, ps, f) <==> id in index) && (id in index ==> Put(index, ps, f)[id] == index[id])
    ensures forall p <- ps | (forall q <- ps :: q.id == p.id ==> q == p) ::
              p.id in Put(index, ps, f) && Put(index, ps, f)[p.id] == VectorOf(p)
  {
    if ps != [] {
      var init, last := ps[..|ps| - 1], ps[|ps| - 1];
      PutGives(index, init, f);
      assert ps == init + [last];
    }
  }

  // When an upsert request succeeds, the index holds the current document of the
  // entity, whether it was embedded now or skipped.
  lemma SuccessMeansCurrent(c: Config, t: Tables, e: Event, chunks: seq<Doc>, f: Faults, now: int)
    requires CacheAgrees(t) && Upserted(c, t, e, chunks, f, now).1.Ok?
    requires exists x <- chunks :: Trim(x.text) != ""
    ensures Documents(e, chunks) != []
    ensures var p := Prepare(c, e, Documents(e, chunks)[0], 0);
            var index := Upserted(c, t, e, chunks, f, now).0.index;
            p.id in index && index[p.id].contentHash == p.row.contentHash
  {
    DocumentsAre(e, chunks);
    assert Documents(e, chunks)[0] in Documents(e, chunks);
    PlanIsCurrent(c, t, Plan(c, e, Documents(e, chunks)), f, now, 0);
  }

  lemma PlanIsCurrent(c: Config, t: Tables, plan: seq<Option<Prepared>>, f: Faults, now: int, i: nat)
    requires CacheAgrees(t) && IdsDiffer(plan)
    requires forall j :: 0 <= j < |plan| && plan[j].Some? ==> plan[j].value.position == j
    requires UpsertedPlan(c, t, plan, f, now).1.Ok?
    requires i < |plan| && plan[i].Some?
    ensures var p := plan[i].value;
            var index := UpsertedPlan(c, t, plan, f, now).0.index;
            p.id in index && index[p.id].contentHash == p.row.contentHash
  {
    var r := EmbedFrom(c, t.state, plan, 0, [], f, now);
    EmbedCovers(c, t.state, plan, 0, [], f, now);
    var p := plan[i].value;
    if r.changed != [] {
      PutGives(t.index, r.changed, f);
      forall q <- r.changed | q.id == p.id ensures q == p {
        var k :| 0 <= k < |r.changed| && r.changed[k] == q;
        assert q.position == i;
      }
    }
  }

  // ---- When a state write is lost ------------------------------------------------------

  // A request writes the vector of its document, but not the row.
  predicate LosesRow(c: Config, state: map<string, StateRow>, p: Prepared, f: Faults) {
    !f.cancelled(0) && !Skips(c, state, p, f) && Reaches(f, 0) && f.writeLost(0)
  }

  // The table says that another content is in the index under this id.
  predicate VouchesForOther(t: Tables, p: Prepared) {
    p.id in t.state && t.state[p.id].status == Indexed && VectorOfRow(t.state[p.id]) != VectorOf(p)
  }

  // One upsert request, whatever fails: the table stays right exactly unless the
  // vector got to the index, its row did not follow, and the table vouched for
  // another content.
  lemma LostUpsertWriteIff(c: Config, t: Tables, e: Event, chunks: seq<Doc>, f: Faults, now: int)
    requires CacheAgrees(t)
    ensures var docs := Documents(e, chunks);
            CacheAgrees(Upserted(c, t, e, chunks, f, now).0)
            <==> !(docs != []
                   && LosesRow(c, t.state, Prepare(c, e, docs[0], 0), f) && VouchesForOther(t, Prepare(c, e, docs[0], 0)))
  {
    var docs := Documents(e, chunks);
    DocumentsAre(e, chunks);
    if docs != [] {
      assert docs[0] in docs;
      OneDocument(c, t, Prepare(c, e, docs[0], 0), f, now);
      assert Plan(c, e, docs) == [Some(Prepare(c, e, docs[0], 0))];
    } else {
      assert Plan(c, e, docs) == [];
    }
  }

  lemma OneDocument(c: Config, t: Tables, p: Prepared, f: Faults, now: int)
    requires CacheAgrees(t) && p.position == 0
    ensures CacheAgrees(UpsertedPlan(c, t, [Some(p)], f, now).0) <==> !(LosesRow(c, t.state, p, f) && VouchesForOther(t, p))
  {
    var plan := [Some(p)];
    if f.writeLost(0) && Reaches(f, 0) {
      if !f.cancelled(0) && !Skips(c, t.state, p, f) {
        assert EmbedFrom(c, t.state, plan, 1, [p], f, now) == Embedding(t.state, [p], Ok);
        assert [] + [p] == [p] && [p][..0] == [];
        assert Put(t.index, [p], f) == t.index[p.id := VectorOf(p)];
        assert MarkAll(t.state, [p], f.upsert, f, now) == t.state;
        VectorWithoutRow(t, p);
      } else {
        assert EmbedFrom(c, t.state, plan, 1, [], f, now) == Embedding(t.state, [], Ok);
      }
    } else {
      PlanKeepsAgreement(c, t, plan, f, now);
    }
  }

  lemma VectorWithoutRow(t: Tables, p: Prepared)
    requires CacheAgrees(t)
    ensures CacheAgrees(t.(index := t.index[p.id := VectorOf(p)])) <==> !VouchesForOther(t, p)
  {
    var t' := t.(index := t.index[p.id := VectorOf(p)]);
    if VouchesForOther(t, p) {
      assert t'.index[p.id] != VectorOfRow(t'.state[p.id]);
    }
  }

  // One delete request, whatever fails: the table stays right exactly unless the
  // vectors went, the rows did not follow, and the table vouched for one of them.
  lemma LostDeleteWriteIff(c: Config, t: Tables, e: Event, f: Faults)
    requires CacheAgrees(t)
    ensures CacheAgrees(Deleted(t, e, f).0)
       <==> !(f.delete.Ok? && (f.writeLost(0) || !HasDeleteKey(e))
              && exists id <- t.state :: t.state[id].status == Indexed && RowMatches(t.state[id], e))
  {
    hide Trim, Lower, HasDeleteKey;
    var t' := Deleted(t, e, f).0;
    if f.delete.Ok? && (f.writeLost(0) || !HasDeleteKey(e)) {
      if id :| id in t.state && t.state[id].status == Indexed && RowMatches(t.state[id], e) {
        assert VectorMatches(t.index[id], e);
        assert id !in t'.index && id in t'.state;
      }
    }
  }

  // The request makes the table vouch for something the index does not hold.
  ghost predicate Breaks(c: Config, t: Tables, r: Request) {
    && IsUuidText(Fold(r.e.tenantId))
    && if Trim(r.e.operation) == "delete" then
         r.f.delete.Ok? && (r.f.writeLost(0) || !HasDeleteKey(r.e))
         && exists id <- t.state :: t.state[id].status == Indexed && RowMatches(t.state[id], r.e)
       else
         Trim(r.e.operation) == "upsert" && r.chunks.Some? && Documents(r.e, r.chunks.value) != []
         && var p := Prepare(c, r.e, Documents(r.e, r.chunks.value)[0], 0);
         LosesRow(c, t.state, p, r.f) && VouchesForOther(t, p)
  }

  lemma HandlingAgreesIff(c: Config, t: Tables, r: Request)
    requires CacheAgrees(t)
    ensures CacheAgrees(Handled(c, t, r.e, r.chunks, r.f, r.now).0) <==> !Breaks(c, t, r)
  {
    hide IsUuidText, Trim, Documents, CacheAgrees, LosesRow, VouchesForOther, Upserted, Deleted;
    LostDeleteWriteIff(c, t, r.e, r.f);
    if r.chunks.Some? {
      LostUpsertWriteIff(c, t, r.e, r.chunks.value, r.f, r.now);
    }
  }

  // The table is right after the run and at every moment before.
  ghost predicate AlwaysAgrees(c: Config, requests: seq<Request>) {
    CacheAgrees(After(c, requests)) && (requests == [] || AlwaysAgrees(c, requests[..|requests| - 1]))
  }

  ghost predicate NeverBreaks(c: Config, requests: seq<Request>) {
    requests == []
    || var n := |requests| - 1;
       NeverBreaks(c, requests[..n]) && !Breaks(c, After(c, requests[..n]), requests[n])
  }

  // With writes lost anywhere: over a whole run the table is right all the time
  // exactly when no request of it breaks the agreement where it comes.
  lemma {:induction false} RunAgreesIff(c: Config, requests: seq<Request>)
    ensures AlwaysAgrees(c, requests) <==> NeverBreaks(c, requests)
  {
    hide Breaks, CacheAgrees, Handled;
    if requests == [] {
      NothingVouched(c);
    } else {
      var n := |requests| - 1;
      RunAgreesIff(c, requests[..n]);
      if CacheAgrees(After(c, requests[..n])) {
        HandlingAgreesIff(c, After(c, requests[..n]), requests[n]);
      }
    }
  }

  lemma NothingVouched(c: Config)
    ensures CacheAgrees(After(c, []))
  {
  }

  // ---- Changed content that is skipped ---------------------------------------------------

  // Nothing goes wrong with the first document of a request.
  predicate AllWell(f: Faults) {
    !f.cancelled(0) && !f.lookupFails(0) && f.embed(0).Ok? && f.upsert.Ok? && !f.writeLost(0)
  }

  // Once the document is in the index and its row says so, a request with the same
  // document changes nothing.
  lemma SameDocumentIsSkipped(c: Config, t: Tables, p: Prepared, f: Faults, now: int, f': Faults, now': int)
    requires p.position == 0 && p.row.embeddingModel == c.model && p.row.embeddingDimension == c.dimension
    requires AllWell(f) && AllWell(f')
    ensures var t' := UpsertedPlan(c, t, [Some(p)], f, now).0;
            UpsertedPlan(c, t', [Some(p)], f', now') == (t', Ok)
  {
    var plan := [Some(p)];
    var t' := UpsertedPlan(c, t, plan, f, now).0;
    assert [] + [p] == [p] && [p][..0] == [];
    assert EmbedFrom(c, t.state, plan, 1, [], f, now) == Embedding(t.state, [], Ok);
    assert EmbedFrom(c, t.state, plan, 1, [p], f, now) == Embedding(t.state, [p], Ok);
    assert MarkAll(t.state, [], f.upsert, f, now) == t.state;
    assert MarkAll(t.state, [p], f.upsert, f, now) == MarkUpserted(t.state, p, now);
    assert Skips(c, t'.state, p, f');
    assert EmbedFrom(c, t'.state, plan, 1, [], f', now') == Embedding(t'.state, [], Ok);
  }

  // A change of content that the document does not show is never indexed: the
  // second of these requests succeeds and changes nothing.
  lemma ChangedContentIsSkipped(c: Config, t: Tables, e: Event, f: Faults, now: int, f': Faults, now': int)
    requires Trim(c.model) == c.model && AllWell(f) && AllWell(f')
    ensures FIVE != SEVEN
    ensures var t' := Upserted(c, t, e, FIVE, f, now).0;
            Upserted(c, t', e, SEVEN, f', now') == (t', Ok)
  {
    hide Documents, DocumentText, Trim;
    ContentEndingInColonIsLost(e);
    DocumentsAre(e, FIVE);
    var docs := Documents(e, FIVE);
    assert docs[0] in docs;
    assert Plan(c, e, docs) == [Some(Prepare(c, e, docs[0], 0))];
    SameDocumentIsSkipped(c, t, Prepare(c, e, docs[0], 0), f, now, f', now');
  }

  // ---- What the index holds --------------------------------------------------------------

  // The request writes this vector under this id.
  predicate Writes(c: Config, t: Tables, r: Request, id: string, v: Vector) {
    && IsUuidText(Fold(r.e.tenantId)) && Trim(r.e.operation) == "upsert" && r.chunks.Some?
    && Documents(r.e, r.chunks.value) != []
    && var p := Prepare(c, r.e, Documents(r.e, r.chunks.value)[0], 0);
    p.id == id && VectorOf(p) == v && Puts(c, t.state, p, r.f)
  }

  // The prepared document gets to the index.
  predicate Puts(c: Config, state: map<string, StateRow>, p: Prepared, f: Faults) {
    !f.cancelled(0) && !Skips(c, state, p, f) && Reaches(f, 0)
  }

  // The request deletes this vector.
  predicate Clears(r: Request, v: Vector) {
    IsUuidText(Fold(r.e.tenantId)) && Trim(r.e.operation) == "delete" && r.f.delete.Ok? && VectorMatches(v, r.e)
  }

  lemma OneDocumentPuts(c: Config, t: Tables, p: Prepared, f: Faults, now: int)
    requires p.position == 0
    ensures UpsertedPlan(c, t, [Some(p)], f, now).0.index
         == if Puts(c, t.state, p, f) then t.index[p.id := VectorOf(p)] else t.index
  {
    var plan := [Some(p)];
    assert [] + [p] == [p] && [p][..0] == [];
    assert EmbedFrom(c, t.state, plan, 1, [], f, now) == Embedding(t.state, [], Ok);
    assert EmbedFrom(c, t.state, plan, 1, [p], f, now) == Embedding(t.state, [p], Ok);
    assert Put(t.index, [], f) == t.index;
    assert Put(t.index, [p], f) == if f.upsert.Ok? || f.landed(0) then t.index[p.id := VectorOf(p)] else t.index;
  }

  predicate HoldsVector(t: Tables, id: string, v: Vector) {
    id in t.index && t.index[id] == v
  }

  // The request writes something under this id.
  ghost predicate WritesAny(c: Config, t: Tables, r: Request, id: string) {
    exists v :: Writes(c, t, r, id, v)
  }

  lemma UpsertIndex(c: Config, t: Tables, r: Request, id: string, v: Vector)
    requires IsUuidText(Fold(r.e.tenantId)) && Trim(r.e.operation) == "upsert"
    ensures HoldsVector(Handled(c, t, r.e, r.chunks, r.f, r.now).0, id, v)
       <==> Writes(c, t, r, id, v) || (HoldsVector(t, id, v) && !WritesAny(c, t, r, id))
  {
    hide IsUuidText, Trim, Lower, Documents, DocumentText, Puts;
    if r.chunks.Some? {
      var docs := Documents(r.e, r.chunks.value);
      DocumentsAre(r.e, r.chunks.value);
      if docs == [] {
        assert Plan(c, r.e, docs) == [];
      } else {
        assert docs[0] in docs;
        var p := Prepare(c, r.e, docs[0], 0);
        assert Plan(c, r.e, docs) == [Some(p)];
        OneDocumentPuts(c, t, p, r.f, r.now);
        assert Puts(c, t.state, p, r.f) ==> Writes(c, t, r, p.id, VectorOf(p));
      }
    }
  }

  // One request: a vector is there afterwards exactly when it was written, or was
  // there and was neither deleted nor written over.
  lemma HandledIndex(c: Config, t: Tables, r: Request, id: string, v: Vector)
    ensures HoldsVector(Handled(c, t, r.e, r.chunks, r.f, r.now).0, id, v)
       <==> Writes(c, t, r, id, v) || (HoldsVector(t, id, v) && !Clears(r, v) && !WritesAny(c, t, r, id))
  {
    hide IsUuidText, Trim, Lower, Documents, Puts, Upserted;
    if IsUuidText(Fold(r.e.tenantId)) && Trim(r.e.operation) == "upsert" {
      UpsertIndex(c, t, r, id, v);
    }
  }

  // Request n writes the vector, and no later one deletes it or writes over it.
  ghost predicate WrittenLast(c: Config, requests: seq<Request>, n: nat, id: string, v: Vector) {
    && n < |requests| && Writes(c, After(c, requests[..n]), requests[n], id, v)
    && forall m :: n < m < |requests| ==> Leaves(c, requests, m, id, v)
  }

  ghost predicate Leaves(c: Config, requests: seq<Request>, m: nat, id: string, v: Vector)
    requires m < |requests|
  {
    !Clears(requests[m], v) && !WritesAny(c, After(c, requests[..m]), requests[m], id)
  }

  // After any run, with anything failing: the index holds exactly the vectors that
  // some request wrote and none after it deleted or wrote over.
  lemma {:induction false} IndexHoldsIff(c: Config, requests: seq<Request>, id: string, v: Vector)
    ensures HoldsVector(After(c, requests), id, v) <==> exists n: nat :: WrittenLast(c, requests, n, id, v)
  {
    hide Writes, WritesAny, Clears, Handled, HoldsVector;
    if requests == [] {
      NothingHeld(c, id, v);
    } else {
      var last := |requests| - 1;
      var init := requests[..last];
      IndexHoldsIff(c, init, id, v);
      HandledIndex(c, After(c, init), requests[last], id, v);
      if Writes(c, After(c, init), requests[last], id, v) {
        assert WrittenLast(c, requests, last, id, v);
      } else {
        forall n: nat | n < last
          ensures WrittenLast(c, requests, n, id, v) <==> WrittenLast(c, init, n, id, v) && Leaves(c, requests, last, id, v)
        {
          WrittenBefore(c, requests, n, id, v);
        }
      }
    }
  }

  lemma WrittenBefore(c: Config, requests: seq<Request>, n: nat, id: string, v: Vector)
    requires n < |requests| - 1
    ensures var last := |requests| - 1;
            WrittenLast(c, requests, n, id, v)
            <==> WrittenLast(c, requests[..last], n, id, v) && Leaves(c, requests, last, id, v)
  {
    hide Writes, WritesAny, Clears, After;
    var last := |requests| - 1;
    var init := requests[..last];
    assert init[..n] == requests[..n];
    forall m: nat | m < last ensures Leaves(c, init, m, id, v) == Leaves(c, requests, m, id, v) {
      assert init[..m] == requests[..m];
    }
  }

  lemma NothingHeld(c: Config, id: string, v: Vector)
    ensures !HoldsVector(After(c, []), id, v)
  {
  }
}
