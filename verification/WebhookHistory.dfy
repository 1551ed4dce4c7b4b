/** What the webhook store holds after any history of deliveries and faults. */
module WebhookHistory {
  import opened WebhookStore

  function After(keyOf: KeyOf, history: seq<Delivery>): Store {
    if history == [] then Store(map[], [])
    else Observed(keyOf, After(keyOf, history[..|history| - 1]), history[|history| - 1]).0
  }

  // A delivery that reaches the store for this connector and event.
  predicate Reaches(d: Delivery, c: UuidBytes, e: string) {
    d.connectorId == c && d.eventId == e && !d.failPersist
  }

  // ... and that finds the outbox working, so that it could open a receipt.
  predicate CanOpen(d: Delivery, c: UuidBytes, e: string) {
    Reaches(d, c, e) && !d.failOutbox
  }

  // Delivery `first` is the first of the history that could open the receipt.
  ghost predicate Opens(history: seq<Delivery>, c: UuidBytes, e: string, first: nat) {
    && first < |history|
    && CanOpen(history[first], c, e)
    && forall i :: 0 <= i < first ==> !CanOpen(history[i], c, e)
  }

  // The deliveries from position i on that reach the store with the same hash.
  function SameHash(history: seq<Delivery>, c: UuidBytes, e: string, hash: string, i: nat): nat {
    if |history| <= i then 0
    else
      var last := history[|history| - 1];
      SameHash(history[..|history| - 1], c, e, hash, i) + if Reaches(last, c, e) && last.bodyHash == hash then 1 else 0
  }

  // The receipt is that of the opening delivery, and counts it and every later
  // delivery with the same hash.
  ghost predicate Accounts(history: seq<Delivery>, c: UuidBytes, e: string, r: Receipt, first: nat) {
    && Opens(history, c, e, first)
    && r.connectorId == c && r.eventId == e
    && r.id == history[first].newId && r.tenantId == history[first].tenantId
    && r.bodyHash == history[first].bodyHash
    && r.deliveryCount == 1 + SameHash(history, c, e, r.bodyHash, first + 1)
    && (r.duplicate <==> r.deliveryCount > 1)
  }

  // The store's entry for this connector and event is what the history demands.
  ghost predicate EntryRight(keyOf: KeyOf, s: Store, history: seq<Delivery>, c: UuidBytes, e: string) {
    if keyOf(c, e) in s.receipts
    then exists first :: Accounts(history, c, e, s.receipts[keyOf(c, e)], first)
    else forall i :: 0 <= i < |history| ==> !CanOpen(history[i], c, e)
  }

  lemma ObservationKeepsEntry(keyOf: KeyOf, s: Store, history: seq<Delivery>, d: Delivery, c: UuidBytes, e: string)
    requires Identifies(keyOf) && EntryRight(keyOf, s, history, c, e)
    ensures EntryRight(keyOf, Observed(keyOf, s, d).0, history + [d], c, e)
  {
    var key, s', longer := keyOf(c, e), Observed(keyOf, s, d).0, history + [d];
    assert longer[..|longer| - 1] == history;
    if key in s.receipts {
      var first :| Accounts(history, c, e, s.receipts[key], first);
      assert Opens(longer, c, e, first);
      assert Accounts(longer, c, e, s'.receipts[key], first);
    } else if CanOpen(d, c, e) {
      assert Opens(longer, c, e, |history|);
      assert Accounts(longer, c, e, s'.receipts[key], |history|);
    }
  }

  lemma {:induction false} EntriesRight(keyOf: KeyOf, history: seq<Delivery>, c: UuidBytes, e: string)
    requires Identifies(keyOf)
    ensures EntryRight(keyOf, After(keyOf, history), history, c, e)
  {
    if history != [] {
      var init, d := history[..|history| - 1], history[|history| - 1];
      EntriesRight(keyOf, init, c, e);
      ObservationKeepsEntry(keyOf, After(keyOf, init), init, d, c, e);
      assert init + [d] == history;
    }
  }

  // After any history of deliveries and faults: a connector and event have a
  // receipt exactly when some delivery could open one; it carries the hash of the
  // first such delivery, and counts that one and the later ones with its hash.
  lemma ReceiptsAccountForHistory(history: seq<Delivery>, c: UuidBytes, e: string)
    ensures var receipts := After(MemoryKey, history).receipts;
            && (MemoryKey(c, e) in receipts <==> exists i :: 0 <= i < |history| && CanOpen(history[i], c, e))
            && (MemoryKey(c, e) in receipts ==>
                  exists first :: Accounts(history, c, e, receipts[MemoryKey(c, e)], first))
  {
    MemoryKeysIdentify();
    EntriesRight(MemoryKey, history, c, e);
  }

  // Faults and conflicts leave everything as it was.
  lemma RefusalsChangeNothing(s: Store, d: Delivery)
    ensures var (s', r) := Observed(MemoryKey, s, d);
            s' == s <==> r.PersistFailed? || r.OutboxFailed? || r.PayloadConflict?
  {
    var (s', r) := Observed(MemoryKey, s, d);
    var key := MemoryKey(d.connectorId, d.eventId);
    if r.Duplicate? {
      assert s'.receipts[key].deliveryCount != s.receipts[key].deliveryCount;
    } else if r.Published? {
      assert |s'.outbox| == |s.outbox| + 1;
    }
  }

  // ---- Receipts and outbox events ----------------------------------------------------------

  // Event i of the outbox announces the receipt under this key.
  ghost predicate Announces(keyOf: KeyOf, s: Store, i: nat, key: string) {
    && i < |s.outbox| && key in s.receipts
    && keyOf(s.outbox[i].connector, s.outbox[i].eventId) == key
    && s.receipts[key].connectorId == s.outbox[i].connector && s.receipts[key].eventId == s.outbox[i].eventId
    && s.receipts[key].id == s.outbox[i].receiptId && s.receipts[key].bodyHash == s.outbox[i].bodyHash
  }

  // Every outbox event announces one receipt, and every receipt is announced
  // by one outbox event.
  ghost predicate OneToOne(keyOf: KeyOf, s: Store) {
    && (forall i :: 0 <= i < |s.outbox| ==> Announces(keyOf, s, i, keyOf(s.outbox[i].connector, s.outbox[i].eventId)))
    && (forall key <- s.receipts :: exists i :: Announces(keyOf, s, i, key))
    && (forall i: nat, j: nat, key :: Announces(keyOf, s, i, key) && Announces(keyOf, s, j, key) ==> i == j)
  }

  lemma ObservationKeepsOneToOne(keyOf: KeyOf, s: Store, d: Delivery)
    requires OneToOne(keyOf, s)
    ensures OneToOne(keyOf, Observed(keyOf, s, d).0)
  {
    var (s', r) := Observed(keyOf, s, d);
    var added := keyOf(d.connectorId, d.eventId);
    if s' != s {
      forall i: nat, key ensures Announces(keyOf, s', i, key)
                            <==> Announces(keyOf, s, i, key) || (r.Published? && i == |s.outbox| && key == added)
      {
        if i < |s.outbox| {
          assert Announces(keyOf, s, i, keyOf(s.outbox[i].connector, s.outbox[i].eventId));
        }
      }
      forall key <- s'.receipts ensures exists i :: Announces(keyOf, s', i, key) {
        if key in s.receipts {
          var i :| Announces(keyOf, s, i, key);
          assert Announces(keyOf, s', i, key);
        } else {
          assert Announces(keyOf, s', |s.outbox|, key);
        }
      }
    }
  }

  // After any history, receipts and outbox events correspond one to one.
  lemma {:induction false} EveryHistoryIsOneToOne(keyOf: KeyOf, history: seq<Delivery>)
    ensures OneToOne(keyOf, After(keyOf, history))
  {
    if history != [] {
      EveryHistoryIsOneToOne(keyOf, history[..|history| - 1]);
      ObservationKeepsOneToOne(keyOf, After(keyOf, history[..|history| - 1]), history[|history| - 1]);
    }
  }

  // ---- Answers -----------------------------------------------------------------------------

  // The delivery that opened the receipt for this connector and event, if any has.
  ghost predicate OpenedAt(history: seq<Delivery>, d: Delivery, first: nat) {
    Opens(history, d.connectorId, d.eventId, first)
  }

  ghost predicate NeverOpened(history: seq<Delivery>, d: Delivery) {
    forall i :: 0 <= i < |history| ==> !CanOpen(history[i], d.connectorId, d.eventId)
  }

  lemma OneOpening(history: seq<Delivery>, c: UuidBytes, e: string, i: nat, j: nat)
    requires Opens(history, c, e, i) && Opens(history, c, e, j)
    ensures i == j
  {
  }

  // Which answer a delivery gets follows from the history. Before any delivery of its
  // event has found store and outbox working, the first one that does is published,
  // under its own id ...
  lemma FirstAnswer(history: seq<Delivery>, d: Delivery)
    ensures var r := Observed(MemoryKey, After(MemoryKey, history), d).1;
            && (r == PersistFailed <==> d.failPersist)
            && (r == OutboxFailed <==> !d.failPersist && d.failOutbox && NeverOpened(history, d))
            && (r.Published? <==> !d.failPersist && !d.failOutbox && NeverOpened(history, d))
            && (r.Published? ==> r == Published(d.newId, 1))
  {
    hide MemoryKey, After, CanOpen, Accounts;
    KnownIff(history, d);
  }

  // ... and after that, one with the same body is a duplicate of it and counted, and one
  // with another body is in conflict with it.
  lemma LaterAnswer(history: seq<Delivery>, d: Delivery, first: nat)
    requires OpenedAt(history, d, first) && !d.failPersist
    ensures var o := history[first];
            var count := 1 + SameHash(history, d.connectorId, d.eventId, o.bodyHash, first + 1);
            Observed(MemoryKey, After(MemoryKey, history), d).1 ==
            if o.bodyHash == d.bodyHash then Duplicate(o.newId, count + 1) else PayloadConflict(o.newId, count)
  {
    hide MemoryKey, After, CanOpen, SameHash;
    var c, e := d.connectorId, d.eventId;
    KnownIff(history, d);
    ReceiptsAccountForHistory(history, c, e);
    var receipt := After(MemoryKey, history).receipts[MemoryKey(c, e)];
    var f: nat :| Accounts(history, c, e, receipt, f);
    OneOpening(history, c, e, first, f);
  }

  // The event that the opening delivery leaves for publishing.
  function Announcement(d: Delivery): OutboxEvent {
    OutboxEvent(d.eventId, d.connectorId, d.newId, d.bodyHash, d.eventType)
  }

  // What is to be published: the openings, in the order they came.
  ghost function Openings(history: seq<Delivery>): seq<OutboxEvent> {
    if history == [] then []
    else
      var init, d := history[..|history| - 1], history[|history| - 1];
      Openings(init) + if CanOpen(d, d.connectorId, d.eventId) && NeverOpened(init, d) then [Announcement(d)] else []
  }

  lemma {:induction false} OutboxIsOpenings(history: seq<Delivery>)
    ensures After(MemoryKey, history).outbox == Openings(history)
  {
    hide MemoryKey, NeverOpened, Accounts;
    if history != [] {
      var init, d := history[..|history| - 1], history[|history| - 1];
      OutboxIsOpenings(init);
      KnownIff(init, d);
    }
  }

  lemma KnownIff(history: seq<Delivery>, d: Delivery)
    ensures MemoryKey(d.connectorId, d.eventId) in After(MemoryKey, history).receipts <==> !NeverOpened(history, d)
  {
    hide MemoryKey, After;
    ReceiptsAccountForHistory(history, d.connectorId, d.eventId);
  }
}
