/**
  The vector indexer of the agents service: an external vector index, and the
  state table that remembers what was last written to it, so that unchanged
  documents are not embedded again. Outside calls may fail; what happened to
  each of them is an input.
 */
module VectorIndexer {
  import opened Wrappers
  import opened Text
  import opened VectorDocuments

  datatype Status = Indexed | Failed | RateLimited

  datatype StateRow = StateRow(
    tenantId: string,
    sourceService: string,
    entityType: string,
    entityId: string,
    sourceType: string,
    contentHash: string,
    contentVersion: string,
    namespace: string,
    embeddingModel: string,
    embeddingDimension: nat,
    lastEventId: string,
    status: Status,
    errorMessage: string,
    attemptCount: nat,
    nextRetry: Option<int>,
    lastIndexed: int)

  // A vector in the index, by the metadata that the indexer relies on.
  datatype Vector = Vector(tenantId: string, entityType: string, entityId: string, contentHash: string)

  datatype Config = Config(sha: string -> string, namespace: string, model: string, dimension: nat)

  // How one call to an outside service ended.
  datatype Call = Ok | Limited(cause: string, retryAt: int) | Broken(cause: string)

  // What happens to the outside calls of one request, by document position.
  // When an upsert call fails, any of its vectors may have landed all the same;
  // a request may be cancelled before it gets to a document.
  datatype Faults = Faults(
    cancelled: nat -> bool,
    lookupFails: nat -> bool,
    embed: nat -> Call,
    upsert: Call,
    landed: nat -> bool,
    writeLost: nat -> bool,
    delete: Call)

  datatype Tables = Tables(state: map<string, StateRow>, index: map<string, Vector>)

  // ---- Names and hashes ------------------------------------------------------------

  function VectorIdText(e: Event, sourceType: string, position: nat): string {
    Join([Lower(Trim(e.tenantId)), Lower(Trim(e.sourceService)), Lower(Trim(e.entityType)), Trim(e.entityId),
          Lower(Trim(sourceType)), Trim(e.contentVersion), Decimal(position)], "|")
  }

  function StableEventVectorID(c: Config, e: Event, sourceType: string, position: nat): string {
    "zord_" + c.sha(VectorIdText(e, sourceType, position))
  }

  function StableEventContentHash(c: Config, e: Event, sourceType: string, text: string): string {
    c.sha(Join([Lower(Trim(e.sourceService)), Lower(Trim(e.entityType)), Trim(e.entityId), Lower(Trim(sourceType)),
                Trim(e.contentVersion), Trim(c.model), Decimal(c.dimension), Trim(text)], "|"))
  }

  // A document made ready: its vector id and the row it will leave in the table.
  datatype Prepared = Prepared(id: string, row: StateRow, position: nat)

  function Prepare(c: Config, e: Event, d: Doc, position: nat): Prepared {
    Prepared(
      StableEventVectorID(c, e, d.sourceType, position),
      StateRow(Lower(Trim(e.tenantId)), Trim(e.sourceService), Lower(Trim(e.entityType)), Trim(e.entityId),
               Trim(d.sourceType), StableEventContentHash(c, e, d.sourceType, DocumentText(d)), Trim(e.contentVersion),
               c.namespace, Trim(c.model), c.dimension, Trim(e.eventId), Indexed, "", 0, None, 0),
      position)
  }

  // The documents of a request made ready; those without text drop out.
  function Plan(c: Config, e: Event, docs: seq<Doc>): (plan: seq<Option<Prepared>>)
    ensures |plan| == |docs|
    ensures forall i :: 0 <= i < |docs| ==>
              plan[i] == if DocumentText(docs[i]) == "" then None else Some(Prepare(c, e, docs[i], i))
    ensures forall i :: 0 <= i < |docs| && plan[i].Some? ==> plan[i].value.position == i
  {
    seq(|docs|, i requires 0 <= i < |docs| =>
        if DocumentText(docs[i]) == "" then None else Some(Prepare(c, e, docs[i], i)))
  }

  function VectorOf(p: Prepared): Vector {
    Vector(p.row.tenantId, p.row.entityType, p.row.entityId, p.row.contentHash)
  }

  // ---- Writes to the state table ---------------------------------------------------

  const MESSAGE_LIMIT := 500

  function Cut(message: string): string {
    if |message| > MESSAGE_LIMIT then message[..MESSAGE_LIMIT] else message
  }

  function MarkUpserted(state: map<string, StateRow>, p: Prepared, now: int): map<string, StateRow> {
    var row := p.row.(status := Indexed, errorMessage := "", lastIndexed := now);
    if p.id in state then
      state[p.id := row.(attemptCount := state[p.id].attemptCount, nextRetry := state[p.id].nextRetry)]
    else
      state[p.id := row.(attemptCount := 0, nextRetry := None)]
  }

  function MarkFailed(state: map<string, StateRow>, p: Prepared, cause: string, now: int): map<string, StateRow> {
    if p.id in state then
      state[p.id := state[p.id].(lastEventId := p.row.lastEventId, status := Failed, errorMessage := Cut(cause))]
    else
      state[p.id := p.row.(status := Failed, errorMessage := Cut(cause), attemptCount := 0, nextRetry := None,
                           lastIndexed := now)]
  }

  function MarkRateLimited(state: map<string, StateRow>, p: Prepared, cause: string, retryAt: int, now: int):
    map<string, StateRow>
  {
    if p.id in state then
      state[p.id := state[p.id].(lastEventId := p.row.lastEventId, status := RateLimited, errorMessage := Cut(cause),
                                 attemptCount := state[p.id].attemptCount + 1, nextRetry := Some(retryAt))]
    else
      state[p.id := p.row.(status := RateLimited, errorMessage := Cut(cause), attemptCount := 1,
                           nextRetry := Some(retryAt), lastIndexed := now)]
  }

  // The row that a call's outcome leaves behind.
  function Mark(state: map<string, StateRow>, p: Prepared, outcome: Call, now: int): map<string, StateRow> {
    match outcome
    case Ok => MarkUpserted(state, p, now)
    case Limited(cause, retryAt) => MarkRateLimited(state, p, cause, retryAt, now)
    case Broken(cause) => MarkFailed(state, p, cause, now)
  }

  function MarkAll(state: map<string, StateRow>, ps: seq<Prepared>, outcome: Call, f: Faults, now: int):
    map<string, StateRow>
  {
    if ps == [] then state
    else
      var before := MarkAll(state, ps[..|ps| - 1], outcome, f, now);
      var p := ps[|ps| - 1];
      if f.writeLost(p.position) then before else Mark(before, p, outcome, now)
  }

  // ---- Upsert ----------------------------------------------------------------------

  predicate Unchanged(c: Config, row: StateRow, p: Prepared) {
    && row.contentHash == p.row.contentHash
    && row.embeddingModel == c.model
    && row.embeddingDimension == c.dimension
    && row.status == Indexed
  }

  // The table says that document i is in the index as it is.
  predicate Skips(c: Config, state: map<string, StateRow>, p: Prepared, f: Faults) {
    !f.lookupFails(p.position) && p.id in state && Unchanged(c, state[p.id], p)
  }

  datatype Embedding = Embedding(state: map<string, StateRow>, changed: seq<Prepared>, outcome: Call)

  // Go through the documents from position i on: skip the unchanged, embed the rest.
  function EmbedFrom(c: Config, state: map<string, StateRow>, plan: seq<Option<Prepared>>, i: nat,
                     changed: seq<Prepared>, f: Faults, now: int): Embedding
    requires i <= |plan|
    decreases |plan| - i
  {
    if i == |plan| then Embedding(state, changed, Ok)
    else if f.cancelled(i) then Embedding(state, [], Broken("cancelled"))
    else if plan[i].None? || Skips(c, state, plan[i].value, f) then
      EmbedFrom(c, state, plan, i + 1, changed, f, now)
    else if f.embed(i).Ok? then
      EmbedFrom(c, state, plan, i + 1, changed + [plan[i].value], f, now)
    else
      Embedding(if f.writeLost(i) then state else Mark(state, plan[i].value, f.embed(i), now), [], f.embed(i))
  }

  // The vectors that reach the index: all of them, or those that landed anyway.
  function Put(index: map<string, Vector>, ps: seq<Prepared>, f: Faults): map<string, Vector> {
    if ps == [] then index
    else
      var before := Put(index, ps[..|ps| - 1], f);
      var p := ps[|ps| - 1];
      if f.upsert.Ok? || f.landed(p.position) then before[p.id := VectorOf(p)] else before
  }

  function UpsertedPlan(c: Config, t: Tables, plan: seq<Option<Prepared>>, f: Faults, now: int): (Tables, Call) {
    var r := EmbedFrom(c, t.state, plan, 0, [], f, now);
    if !r.outcome.Ok? || r.changed == [] then (t.(state := r.state), r.outcome)
    else (Tables(MarkAll(r.state, r.changed, f.upsert, f, now), Put(t.index, r.changed, f)), f.upsert)
  }

  function Upserted(c: Config, t: Tables, e: Event, chunks: seq<Doc>, f: Faults, now: int): (Tables, Call) {
    UpsertedPlan(c, t, Plan(c, e, Documents(e, chunks)), f, now)
  }

  // ---- Delete ----------------------------------------------------------------------

  predicate RowMatches(row: StateRow, e: Event) {
    row.tenantId == Lower(Trim(e.tenantId)) && row.entityType == Lower(Trim(e.entityType)) && row.entityId == Trim(e.entityId)
  }

  predicate VectorMatches(v: Vector, e: Event) {
    v.tenantId == Lower(Trim(e.tenantId)) && v.entityType == Lower(Trim(e.entityType)) && v.entityId == Trim(e.entityId)
  }

  predicate HasDeleteKey(e: Event) {
    Trim(e.tenantId) != "" && Trim(e.entityType) != "" && Trim(e.entityId) != ""
  }

  function Deleted(t: Tables, e: Event, f: Faults): (Tables, Call) {
    if !f.delete.Ok? then (t, f.delete)
    else
      var index := map id <- t.index | !VectorMatches(t.index[id], e) :: t.index[id];
      var state := if f.writeLost(0) || !HasDeleteKey(e) then t.state
                   else map id <- t.state | !RowMatches(t.state[id], e) :: t.state[id];
      (Tables(state, index), Ok)
  }

  // `chunks` is what the source service has to say about the entity, if it answers.
  function Handled(c: Config, t: Tables, e: Event, chunks: Option<seq<Doc>>, f: Faults, now: int): (Tables, Call) {
    if !IsUuidText(Lower(Trim(e.tenantId))) then (t, Broken("invalid tenant_id"))
    else if Trim(e.operation) == "delete" then Deleted(t, e, f)
    else if Trim(e.operation) == "upsert" then
      if chunks.None? then (t, Broken("source unavailable")) else Upserted(c, t, e, chunks.value, f, now)
    else (t, Broken("unsupported vector index operation"))
  }

  // ---- Retries ---------------------------------------------------------------------

  const EVENT_REQUESTED := "vector.index.requested"

  // The request a row of the state table stands for.
  function RetryEvent(row: StateRow): Event {
    Event(row.lastEventId, EVENT_REQUESTED, row.sourceService, row.tenantId, row.entityType, row.entityId, "upsert",
          row.contentVersion, "")
  }

  // What the outside world does during one request.
  datatype Outside = Outside(chunks: Option<seq<Doc>>, f: Faults, now: int)

  function Retried(c: Config, t: Tables, items: seq<StateRow>, outside: nat -> Outside): Tables {
    if items == [] then t
    else
      var n := |items| - 1;
      var o := outside(n);
      Handled(c, Retried(c, t, items[..n], outside), RetryEvent(items[n]), o.chunks, o.f, o.now).0
  }

  // ---- The indexer -----------------------------------------------------------------

  class Indexer {
    const config: Config
    var state: map<string, StateRow>
    var index: map<string, Vector>

    ghost function Value(): Tables
      reads this
    {
      Tables(state, index)
    }

    constructor (config: Config)
      ensures this.config == config && Value() == Tables(map[], map[])
    {
      this.config := config;
      state, index := map[], map[];
    }

    method HandleVectorIndexRequest(e: Event, chunks: Option<seq<Doc>>, f: Faults, now: int) returns (r: Call)
      modifies this
      ensures (Value(), r) == Handled(config, old(Value()), e, chunks, f, now)
    {
      if !IsUuidText(Lower(Trim(e.tenantId))) {
        return Broken("invalid tenant_id");
      }
      var operation := Trim(e.operation);
      if operation == "delete" {
        r := DeleteEventVectors(e, f);
      } else if operation == "upsert" {
        if chunks.None? {
          return Broken("source unavailable");
        }
        r := UpsertEventVectors(e, chunks.value, f, now);
      } else {
        r := Broken("unsupported vector index operation");
      }
    }

    // The rows whose retry is due are handled one after another, whatever becomes of each.
    method RetryDueRateLimited(items: seq<StateRow>, outside: nat -> Outside)
      modifies this
      ensures Value() == Retried(config, old(Value()), items, outside)
    {
      for i := 0 to |items|
        invariant Value() == Retried(config, old(Value()), items[..i], outside)
      {
        assert items[..i + 1][..i] == items[..i];
        var o := outside(i);
        var _ := HandleVectorIndexRequest(RetryEvent(items[i]), o.chunks, o.f, o.now);
      }
      assert items[..|items|] == items;
    }

    method UpsertEventVectors(e: Event, chunks: seq<Doc>, f: Faults, now: int) returns (r: Call)
      modifies this
      ensures (Value(), r) == Upserted(config, old(Value()), e, chunks, f, now)
    {
      var safe := SanitizeVectorIndexChunks(chunks);
      var docs := CompactVectorEventChunks(e, safe);
      if |docs| == 0 {
        return Ok;
      }
      var changed;
      changed, r := EmbedChangedEventChunks(e, docs, f, now);
      if !r.Ok? || |changed| == 0 {
        return;
      }
      ghost var indexBefore, stateBefore := index, state;
      for i := 0 to |changed|
        invariant index == Put(indexBefore, changed[..i], f) && state == stateBefore
      {
        assert changed[..i + 1][..i] == changed[..i];
        if f.upsert.Ok? || f.landed(changed[i].position) {
          index := index[changed[i].id := VectorOf(changed[i])];
        }
      }
      for i := 0 to |changed|
        invariant state == MarkAll(stateBefore, changed[..i], f.upsert, f, now)
        invariant index == Put(indexBefore, changed[..|changed|], f)
      {
        assert changed[..i + 1][..i] == changed[..i];
        if !f.writeLost(changed[i].position) {
          state := Mark(state, changed[i], f.upsert, now);
        }
      }
      assert changed[..|changed|] == changed;
      r := f.upsert;
    }

    method EmbedChangedEventChunks(e: Event, docs: seq<Doc>, f: Faults, now: int)
      returns (changed: seq<Prepared>, r: Call)
      modifies this`state
      ensures Embedding(state, changed, r) == EmbedFrom(config, old(state), Plan(config, e, docs), 0, [], f, now)
    {
      changed := [];
      ghost var plan := Plan(config, e, docs);
      for i := 0 to |docs|
        invariant state == old(state)
        invariant EmbedFrom(config, old(state), plan, 0, [], f, now)
               == EmbedFrom(config, state, plan, i, changed, f, now)
      {
        if f.cancelled(i) {
          return [], Broken("cancelled");
        }
        var text := DocumentText(docs[i]);
        if text == "" {
          continue;
        }
        var p := Prepare(config, e, docs[i], i);
        if !f.lookupFails(i) && p.id in state && Unchanged(config, state[p.id], p) {
          continue;
        }
        var embedded := f.embed(i);
        if !embedded.Ok? {
          if !f.writeLost(i) {
            state := Mark(state, p, embedded, now);
          }
          return [], embedded;
        }
        changed := changed + [p];
      }
      r := Ok;
    }

    method DeleteEventVectors(e: Event, f: Faults) returns (r: Call)
      modifies this
      ensures (Value(), r) == Deleted(old(Value()), e, f)
    {
      if !f.delete.Ok? {
        return f.delete;
      }
      index := map id <- index | !VectorMatches(index[id], e) :: index[id];
      if HasDeleteKey(e) && !f.writeLost(0) {
        state := map id <- state | !RowMatches(state[id], e) :: state[id];
      }
      r := Ok;
    }
  }
}
