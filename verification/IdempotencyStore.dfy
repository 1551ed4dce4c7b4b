/**
  The idempotency gate of the edge service: the `idempotency_keys`,
  `ingress_envelopes` and `ingress_outbox` tables, and the three transactions
  that touch them. Each transaction locks the key row, so each is one atomic step.
  Times are microseconds on the database clock.
 */
module IdempotencyStore {
  import opened Wrappers

  datatype KeyRef = KeyRef(tenant: Uuid, key: string)

  datatype Status = InProgress | Reserved | Completed

  datatype Resolution = Created | Reused

  datatype KeyRow = KeyRow(
    status: Status,
    fingerprint: string,
    firstEnvelope: Option<Uuid>,
    firstSeen: int,
    lastSeen: int,
    resolution: Resolution,
    conflictCount: nat,
    lastConflict: Option<int>,
    principalFirstSeen: Option<Uuid>,
    sourceClassFirstSeen: Option<string>)

  datatype Envelope = Envelope(ref: KeyRef, principal: Uuid, sourceClass: string)

  // One row of the outbox; `outboxIds` are the positions in the insertion log.
  datatype OutboxEntry = OutboxEntry(envelopeId: Uuid, ref: KeyRef)

  datatype Tables = Tables(
    keys: map<KeyRef, KeyRow>,
    envelopes: map<Uuid, Envelope>,
    outbox: seq<OutboxEntry>)

  datatype ClaimResult =
    | Proceed
    | Duplicate(envelopeId: Uuid)
    | FingerprintMismatch
    | InFlight

  const STALE_IN_PROGRESS: int := 90_000_000

  const EMPTY: Tables := Tables(map[], map[], [])

  // ---- What each transaction does to the tables ---------------------------

  function FreshRow(fingerprint: string, now: int): KeyRow {
    KeyRow(InProgress, fingerprint, None, now, now, Created, 0, None, None, None)
  }

  // The bookkeeping of a repeated key: one more conflict, and the first
  // envelope's principal and class copied in when they are still missing.
  function NoteConflict(row: KeyRow, envelopes: map<Uuid, Envelope>, now: int): KeyRow {
    var counted := row.(conflictCount := row.conflictCount + 1, lastConflict := Some(now));
    if row.firstEnvelope.Some? && row.principalFirstSeen.None? && row.firstEnvelope.value in envelopes then
      var e := envelopes[row.firstEnvelope.value];
      counted.(principalFirstSeen := Some(e.principal), sourceClassFirstSeen := Some(e.sourceClass))
    else
      counted
  }

  predicate Claimable(row: KeyRow, now: int) {
    && row.firstEnvelope.None?
    && (row.status == Reserved || (row.status == InProgress && row.lastSeen < now - STALE_IN_PROGRESS))
  }

  function Persisted(t: Tables, ref: KeyRef, fingerprint: string, now: int): (Tables, ClaimResult) {
    if ref.key == "" then (t, Proceed)
    else if ref !in t.keys then (t.(keys := t.keys[ref := FreshRow(fingerprint, now)]), Proceed)
    else
      var row := t.keys[ref];
      var noted := NoteConflict(row, t.envelopes, now);
      if row.fingerprint != fingerprint then
        (t.(keys := t.keys[ref := noted]), FingerprintMismatch)
      else if row.firstEnvelope.Some? && row.status == Completed then
        (t.(keys := t.keys[ref := noted.(lastSeen := now, resolution := Reused)]), Duplicate(row.firstEnvelope.value))
      else if Claimable(row, now) then
        (t.(keys := t.keys[ref := row.(status := InProgress, lastSeen := now)]), Proceed)
      else
        (t, InFlight)
  }

  function Released(t: Tables, ref: KeyRef, fingerprint: string, now: int): Tables {
    if ref.key != "" && ref in t.keys && t.keys[ref].fingerprint == fingerprint
       && t.keys[ref].status == InProgress && t.keys[ref].firstEnvelope.None?
    then t.(keys := t.keys[ref := t.keys[ref].(status := Reserved, lastSeen := now)])
    else t
  }

  predicate CanSave(t: Tables, id: Uuid, e: Envelope) {
    id !in t.envelopes && e.ref in t.keys
  }

  function Saved(t: Tables, id: Uuid, e: Envelope, now: int): Tables {
    if !CanSave(t, id, e) then t
    else
      var row := t.keys[e.ref].(
        status := Completed, firstEnvelope := Some(id), lastSeen := now, resolution := Created,
        principalFirstSeen := Some(e.principal), sourceClassFirstSeen := Some(e.sourceClass));
      Tables(t.keys[e.ref := row], t.envelopes[id := e], t.outbox + [OutboxEntry(id, e.ref)])
  }

  // ---- The database itself -------------------------------------------------

  class EdgeDatabase {
    var keys: map<KeyRef, KeyRow>
    var envelopes: map<Uuid, Envelope>
    var outbox: seq<OutboxEntry>

    ghost function Value(): Tables
      reads this
    {
      Tables(keys, envelopes, outbox)
    }

    constructor ()
      ensures Value() == EMPTY
    {
      keys, envelopes, outbox := map[], map[], [];
    }

    // Insert a new key, or recognise a duplicate, a conflict, or a claim in flight.
    method PersistIdempotency(ref: KeyRef, fingerprint: string, now: int) returns (r: ClaimResult)
      modifies this
      ensures (Value(), r) == Persisted(old(Value()), ref, fingerprint, now)
    {
      if ref.key == "" {
        return Proceed;
      }
      if ref !in keys {
        keys := keys[ref := FreshRow(fingerprint, now)];
        return Proceed;
      }
      var row := keys[ref];
      var updated := row.(conflictCount := row.conflictCount + 1, lastConflict := Some(now));
      if row.firstEnvelope.Some? && row.principalFirstSeen.None? {
        var first := row.firstEnvelope.value;
        if first in envelopes {
          updated := updated.(principalFirstSeen := Some(envelopes[first].principal),
                              sourceClassFirstSeen := Some(envelopes[first].sourceClass));
        }
      }
      if row.fingerprint != fingerprint {
        keys := keys[ref := updated];
        return FingerprintMismatch;
      }
      if row.firstEnvelope.Some? && row.status == Completed {
        keys := keys[ref := updated.(lastSeen := now, resolution := Reused)];
        return Duplicate(row.firstEnvelope.value);
      }
      if Claimable(row, now) {
        keys := keys[ref := row.(status := InProgress, lastSeen := now)];
        return Proceed;
      }
      return InFlight;
    }

    // Give an unfinished claim back so that the client may retry.
    method ReleaseIdempotencyClaim(ref: KeyRef, fingerprint: string, now: int)
      modifies this
      ensures Value() == Released(old(Value()), ref, fingerprint, now)
    {
      if ref.key == "" {
        return;
      }
      if ref in keys && keys[ref].fingerprint == fingerprint
         && keys[ref].status == InProgress && keys[ref].firstEnvelope.None?
      {
        keys := keys[ref := keys[ref].(status := Reserved, lastSeen := now)];
      }
    }

    // Insert the envelope, complete the key and insert the outbox row, or do nothing.
    method SaveRawIntent(id: Uuid, e: Envelope, now: int) returns (ok: bool)
      modifies this
      ensures ok == CanSave(old(Value()), id, e)
      ensures Value() == Saved(old(Value()), id, e, now)
    {
      if id in envelopes {
        return false;
      }
      if e.ref !in keys {
        return false;
      }
      envelopes := envelopes[id := e];
      keys := keys[e.ref := keys[e.ref].(
        status := Completed, firstEnvelope := Some(id), lastSeen := now, resolution := Created,
        principalFirstSeen := Some(e.principal), sourceClassFirstSeen := Some(e.sourceClass))];
      outbox := outbox + [OutboxEntry(id, e.ref)];
      return true;
    }
  }
}
