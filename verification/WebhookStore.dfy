/**
  The in-process store of provider webhook observations: receipts keyed by
  connector and event, and an outbox of observations to publish.
 */
module WebhookStore {
  import opened Wrappers

  // A UUID as sixteen bytes.
  type UuidBytes = u: seq<nat> | |u| == 16 && forall i :: 0 <= i < 16 ==> u[i] < 256
    witness [0, 0, 0, 0, 0, 0, 0, 0, 0, 0, 0, 0, 0, 0, 0, 0]

  datatype Receipt = Receipt(
    id: Uuid,
    tenantId: UuidBytes,
    connectorId: UuidBytes,
    eventId: string,
    bodyHash: string,
    deliveryCount: nat,
    duplicate: bool)

  datatype OutboxEvent = OutboxEvent(eventId: string, connector: UuidBytes, receiptId: Uuid, bodyHash: string, eventType: string)

  // One delivery: what arrived, the id a new receipt would get, and the faults in force.
  datatype Delivery = Delivery(
    tenantId: UuidBytes,
    connectorId: UuidBytes,
    eventId: string,
    bodyHash: string,
    eventType: string,
    newId: Uuid,
    failPersist: bool,
    failOutbox: bool)

  datatype Result =
    | PersistFailed
    | OutboxFailed
    | Published(id: Uuid, count: nat)
    | Duplicate(id: Uuid, count: nat)
    | PayloadConflict(id: Uuid, count: nat)

  datatype Store = Store(receipts: map<string, Receipt>, outbox: seq<OutboxEvent>)

  // ---- Keys -------------------------------------------------------------------------

  function HexDigit(n: nat): char
    requires n < 16
  {
    if n < 10 then '0' + n as char else 'a' + (n - 10) as char
  }

  // Byte i of a UUID in text: two digits, after a dash where a new group starts.
  function ByteText(i: nat, b: nat): string
    requires b < 256
  {
    (if i == 4 || i == 6 || i == 8 || i == 10 then "-" else "") + [HexDigit(b / 16), HexDigit(b % 16)]
  }

  // The text form of a UUID, from byte i on.
  function UuidText(u: UuidBytes, i: nat): string
    requires i <= 16
    decreases 16 - i
  {
    if i == 16 then "" else ByteText(i, u[i]) + UuidText(u, i + 1)
  }

  function MemoryKey(connectorId: UuidBytes, eventId: string): string {
    UuidText(connectorId, 0) + "|" + eventId
  }

  // How receipts are keyed; the store uses MemoryKey.
  type KeyOf = (UuidBytes, string) -> string

  // ---- One delivery -------------------------------------------------------------------

  function NewReceipt(d: Delivery): Receipt {
    Receipt(d.newId, d.tenantId, d.connectorId, d.eventId, d.bodyHash, 1, false)
  }

  function NewEvent(d: Delivery): OutboxEvent {
    OutboxEvent(d.eventId, d.connectorId, d.newId, d.bodyHash, d.eventType)
  }

  function Observed(keyOf: KeyOf, s: Store, d: Delivery): (Store, Result) {
    var key := keyOf(d.connectorId, d.eventId);
    if d.failPersist then (s, PersistFailed)
    else if key in s.receipts then
      var stored := s.receipts[key];
      if stored.bodyHash != d.bodyHash then (s, PayloadConflict(stored.id, stored.deliveryCount))
      else
        var counted := stored.(deliveryCount := stored.deliveryCount + 1, duplicate := true);
        (s.(receipts := s.receipts[key := counted]), Duplicate(stored.id, counted.deliveryCount))
    else if d.failOutbox then (s, OutboxFailed)
    else (Store(s.receipts[key := NewReceipt(d)], s.outbox + [NewEvent(d)]), Published(d.newId, 1))
  }

  class MemoryWebhookStore {
    var receipts: map<string, Receipt>
    var outbox: seq<OutboxEvent>

    ghost function Value(): Store
      reads this
    {
      Store(receipts, outbox)
    }

    constructor ()
      ensures Value() == Store(map[], [])
    {
      receipts, outbox := map[], [];
    }

    method PersistWebhookObservation(d: Delivery) returns (r: Result)
      modifies this
      ensures (Value(), r) == Observed(MemoryKey, old(Value()), d)
    {
      hide MemoryKey;
      if d.failPersist {
        return PersistFailed;
      }
      var key := MemoryKey(d.connectorId, d.eventId);
      if key in receipts {
        var existing := receipts[key];
        if existing.bodyHash != d.bodyHash {
          return PayloadConflict(existing.id, existing.deliveryCount);
        }
        existing := existing.(deliveryCount := existing.deliveryCount + 1);
        existing := existing.(duplicate := true);
        receipts := receipts[key := existing];
        return Duplicate(existing.id, existing.deliveryCount);
      }
      if d.failOutbox {
        return OutboxFailed;
      }
      receipts := receipts[key := NewReceipt(d)];
      outbox := outbox + [NewEvent(d)];
      return Published(d.newId, 1);
    }
  }

  // ---- Keys identify their event ---------------------------------------------------------

  lemma ByteTextDetermines(i: nat, b: nat, c: nat, x: string, y: string)
    requires b < 256 && c < 256 && ByteText(i, b) + x == ByteText(i, c) + y
    ensures b == c && x == y
  {
    var n := |ByteText(i, b)|;
    var s, t := ByteText(i, b) + x, ByteText(i, c) + y;
    assert s[n - 2] == HexDigit(b / 16) && s[n - 1] == HexDigit(b % 16) && s[n..] == x;
    assert t[n - 2] == HexDigit(c / 16) && t[n - 1] == HexDigit(c % 16) && t[n..] == y;
  }

  lemma {:induction false} UuidTextDetermines(u: UuidBytes, v: UuidBytes, i: nat, x: string, y: string)
    requires i <= 16 && UuidText(u, i) + x == UuidText(v, i) + y
    ensures u[i..] == v[i..] && x == y
    decreases 16 - i
  {
    hide ByteText;
    if i == 16 {
      assert UuidText(u, i) + x == x && UuidText(v, i) + y == y;
    } else {
      var p, q := UuidText(u, i + 1), UuidText(v, i + 1);
      assert (ByteText(i, u[i]) + p) + x == ByteText(i, u[i]) + (p + x);
      assert (ByteText(i, v[i]) + q) + y == ByteText(i, v[i]) + (q + y);
      ByteTextDetermines(i, u[i], v[i], p + x, q + y);
      UuidTextDetermines(u, v, i + 1, x, y);
      assert u[i..] == [u[i]] + u[i + 1..] && v[i..] == [v[i]] + v[i + 1..];
    }
  }

  // Where the two digits of byte i stand in the text.
  function DigitsAt(i: nat): nat {
    2 * i + (if i >= 10 then 4 else if i >= 8 then 3 else if i >= 6 then 2 else if i >= 4 then 1 else 0)
  }

  // Where byte i starts, dash included.
  function StartsAt(i: nat): nat {
    if i == 4 || i == 6 || i == 8 || i == 10 then DigitsAt(i) - 1 else DigitsAt(i)
  }

  // Byte i of the UUID reads so at this place of the text.
  predicate ReadsAt(t: string, at: nat, i: nat, b: nat)
    requires b < 256
  {
    && at + |ByteText(i, b)| <= |t|
    && t[at..at + |ByteText(i, b)|] == ByteText(i, b)
  }

  predicate DigitsOf(t: string, at: nat, b: nat)
    requires b < 256
  {
    at + 1 < |t| && t[at] == "0123456789abcdef"[b / 16] && t[at + 1] == "0123456789abcdef"[b % 16]
  }

  predicate DashAt(t: string, at: int) {
    0 <= at < |t| && t[at] == '-'
  }

  // The text of a UUID has 36 characters; each byte is its two hexadecimal digits, in lower
  // case, with a dash before bytes 4, 6, 8 and 10.
  lemma UuidTextReads(u: UuidBytes, i: nat)
    requires i < 16
    ensures |UuidText(u, 0)| == 36 && DigitsOf(UuidText(u, 0), DigitsAt(i), u[i])
    ensures i in {4, 6, 8, 10} ==> DashAt(UuidText(u, 0), DigitsAt(i) - 1)
  {
    hide UuidText, ByteText, DigitsOf;
    UuidTextLength(u, 0);
    UuidTextFrom(u, 0, i);
    ByteTextReads(i, u[i]);
    PieceReads(UuidText(u, 0), StartsAt(i), i, u[i]);
  }

  lemma PieceReads(t: string, at: nat, i: nat, b: nat)
    requires b < 256 && ReadsAt(t, at, i, b)
    ensures DigitsOf(t, at + (if i in {4, 6, 8, 10} then 1 else 0), b)
    ensures i in {4, 6, 8, 10} ==> DashAt(t, at)
  {
    hide ByteText;
    ByteTextReads(i, b);
    var piece := t[at..at + |ByteText(i, b)|];
    assert piece[0] == t[at] && piece[1] == t[at + 1];
    if i in {4, 6, 8, 10} {
      assert piece[2] == t[at + 2];
    }
  }

  lemma {:induction false} UuidTextLength(u: UuidBytes, k: nat)
    requires k <= 16
    ensures StartsAt(k) + |UuidText(u, k)| == 36
    decreases 16 - k
  {
    hide ByteText;
    if k < 16 {
      ByteLength(k, u[k]);
      UuidTextLength(u, k + 1);
    }
  }

  lemma {:induction false} UuidTextFrom(u: UuidBytes, k: nat, i: nat)
    requires k <= i < 16
    ensures StartsAt(k) <= StartsAt(i) && ReadsAt(UuidText(u, k), StartsAt(i) - StartsAt(k), i, u[i])
    decreases i - k
  {
    hide ByteText, StartsAt, ReadsAt;
    var first, rest := ByteText(k, u[k]), UuidText(u, k + 1);
    ByteLength(k, u[k]);
    assert UuidText(u, k) == first + rest;
    if k < i {
      UuidTextFrom(u, k + 1, i);
      ReadsAfter(first, rest, StartsAt(i) - StartsAt(k + 1), i, u[i]);
    } else {
      ReadsFirst(rest, i, u[i]);
    }
  }

  lemma ReadsAfter(first: string, rest: string, at: nat, i: nat, b: nat)
    requires b < 256 && ReadsAt(rest, at, i, b)
    ensures ReadsAt(first + rest, |first| + at, i, b)
  {
    hide ByteText;
    var n := |ByteText(i, b)|;
    assert (first + rest)[|first| + at..|first| + at + n] == rest[at..at + n];
  }

  lemma ReadsFirst(rest: string, i: nat, b: nat)
    requires b < 256
    ensures ReadsAt(ByteText(i, b) + rest, 0, i, b)
  {
    hide ByteText;
    assert (ByteText(i, b) + rest)[0..|ByteText(i, b)|] == ByteText(i, b);
  }

  lemma ByteLength(i: nat, b: nat)
    requires i < 16 && b < 256
    ensures StartsAt(i + 1) == StartsAt(i) + |ByteText(i, b)|
  {
  }

  lemma ByteTextReads(i: nat, b: nat)
    requires b < 256
    ensures var t := ByteText(i, b);
            var dash := if i in {4, 6, 8, 10} then 1 else 0;
            |t| == dash + 2 && DigitsOf(t, dash, b) && (dash == 1 ==> t[0] == '-')
  {
    hide HexDigit;
    HexDigitIs(b / 16);
    HexDigitIs(b % 16);
  }

  lemma HexDigitIs(n: nat)
    requires n < 16
    ensures HexDigit(n) == "0123456789abcdef"[n]
  {
  }

  ghost predicate Identifies(keyOf: KeyOf) {
    forall c, e, c', e' :: keyOf(c, e) == keyOf(c', e') ==> c == c' && e == e'
  }

  // Text before a bar can be cut off together with it.
  lemma BarJoins(t: string, e: string)
    ensures t + "|" + e == t + ("|" + e)
  {
  }

  // No two pairs of connector and event share a key, whatever the event id contains.
  lemma MemoryKeyIdentifies(c: UuidBytes, e: string, c': UuidBytes, e': string)
    requires MemoryKey(c, e) == MemoryKey(c', e')
    ensures c == c' && e == e'
  {
    BarJoins(UuidText(c, 0), e);
    BarJoins(UuidText(c', 0), e');
    UuidTextDetermines(c, c', 0, "|" + e, "|" + e');
    assert c[0..] == c && c'[0..] == c';
    assert ("|" + e)[1..] == e && ("|" + e')[1..] == e';
  }

  lemma MemoryKeysIdentify()
    ensures Identifies(MemoryKey)
  {
    forall c, e, c', e' | MemoryKey(c, e) == MemoryKey(c', e') ensures c == c' && e == e' {
      MemoryKeyIdentifies(c, e, c', e');
    }
  }
}
