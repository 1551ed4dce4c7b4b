/**
  The consumer of index requests: one claim is a run of messages, each tried up
  to a limit; a message is marked once it needs no redelivery.
 */
module IndexConsumer {
  import opened Text
  import opened VectorDocuments
  import opened VectorIndexer

  datatype Message = Garbled | Decoded(event: Event)

  datatype Reply = Done | Deferred | Error

  predicate IsValid(e: Event) {
    && Trim(e.eventId) != ""
    && Trim(e.eventType) == EVENT_REQUESTED
    && IsUuidText(Trim(e.tenantId))
    && Trim(e.sourceService) != ""
    && Trim(e.entityType) != ""
    && Trim(e.entityId) != ""
    && (Trim(e.operation) == "upsert" || Trim(e.operation) == "delete")
  }

  // What the consumer accepts always names an entity, as deletion requires.
  lemma ValidEventsNameAnEntity(e: Event)
    requires IsValid(e)
    ensures HasDeleteKey(e)
  {
    assert Trim(e.tenantId) != "";
  }

  predicate Rejected(m: Message) {
    m.Garbled? || !IsValid(m.event)
  }

  // The handler answers attempt k (from 1) on message i with reply(i, k).
  type Handler = (nat, nat) -> Reply

  // Attempt k is the first one on message i that does not end in an error.
  ghost predicate SettledAt(reply: Handler, i: nat, k: nat) {
    k >= 1 && reply(i, k) != Error && forall j :: 1 <= j < k ==> reply(i, j) == Error
  }

  ghost predicate FailsThroughout(reply: Handler, i: nat, tries: nat) {
    forall j :: 1 <= j <= tries ==> reply(i, j) == Error
  }

  // Message i needs no redelivery: it is unusable, or some allowed attempt settled it.
  ghost predicate Finished(msgs: seq<Message>, reply: Handler, i: nat, tries: nat)
    requires i < |msgs|
  {
    Rejected(msgs[i]) || exists k :: 1 <= k <= tries && SettledAt(reply, i, k)
  }

  // The attempt from k on that settles message i, or the last one allowed.
  function Attempts(reply: Handler, i: nat, k: nat, tries: nat): nat
    decreases tries - k
  {
    if k >= tries || reply(i, k) != Error then k else Attempts(reply, i, k + 1, tries)
  }

  // How often the handler is called for message i.
  function CallsFor(msgs: seq<Message>, reply: Handler, i: nat, tries: nat): nat
    requires i < |msgs|
  {
    if Rejected(msgs[i]) then 0 else Attempts(reply, i, 1, tries)
  }

  // ... and for the first n messages.
  function TotalCalls(msgs: seq<Message>, reply: Handler, n: nat, tries: nat): nat
    requires n <= |msgs|
  {
    if n == 0 then 0 else TotalCalls(msgs, reply, n - 1, tries) + CallsFor(msgs, reply, n - 1, tries)
  }

  lemma {:induction false} AttemptsBound(reply: Handler, i: nat, k: nat, tries: nat)
    requires k <= tries
    ensures k <= Attempts(reply, i, k, tries) <= tries
    decreases tries - k
  {
    if k < tries && reply(i, k) == Error {
      AttemptsBound(reply, i, k + 1, tries);
    }
  }

  // No claim takes more calls than the tries allowed for each message.
  lemma {:induction false} TotalCallsBound(msgs: seq<Message>, reply: Handler, n: nat, tries: nat)
    requires n <= |msgs| && tries >= 1
    ensures TotalCalls(msgs, reply, n, tries) <= tries * n
  {
    hide Rejected;
    if n > 0 {
      TotalCallsBound(msgs, reply, n - 1, tries);
      AttemptsBound(reply, n - 1, 1, tries);
      assert tries * n == tries * (n - 1) + tries;
    }
  }

  // The field has something in it besides blanks.
  ghost predicate Filled(s: string) {
    exists k :: 0 <= k < |s| && !IsSpace(s[k])
  }

  // A request for the index with every field it needs, to put an entity in or take it out.
  ghost predicate Complete(e: Event) {
    && Filled(e.eventId) && Filled(e.sourceService) && Filled(e.entityType) && Filled(e.entityId)
    && Trim(e.eventType) == "vector.index.requested"
    && IsUuidText(Trim(e.tenantId))
    && (Trim(e.operation) == "upsert" || Trim(e.operation) == "delete")
  }

  lemma {:induction false} FilledIff(s: string)
    ensures Filled(s) <==> Trim(s) != ""
  {
    var t := TrimLeft(s);
    TrimLeftIff(s);
    TrimRightIff(t);
  }

  lemma {:induction false} TrimLeftIff(s: string)
    ensures Filled(TrimLeft(s)) <==> Filled(s)
  {
    if s != "" && IsSpace(s[0]) {
      TrimLeftIff(s[1..]);
      if k :| 0 <= k < |s| && !IsSpace(s[k]) {
        assert s[1..][k - 1] == s[k];
      }
    }
  }

  lemma {:induction false} TrimRightIff(s: string)
    ensures TrimRight(s) != "" <==> Filled(s)
  {
    if s != "" && IsSpace(s[|s| - 1]) {
      TrimRightIff(s[..|s| - 1]);
      if k :| 0 <= k < |s| && !IsSpace(s[k]) {
        assert s[..|s| - 1][k] == s[k];
      }
    }
  }

  // A message reaches the handler exactly when it can be read and its request is complete.
  lemma ReachesHandlerIff(msgs: seq<Message>, reply: Handler, i: nat, tries: nat)
    requires i < |msgs| && tries >= 1
    ensures CallsFor(msgs, reply, i, tries) >= 1 <==> msgs[i].Decoded? && Complete(msgs[i].event)
  {
    hide Filled, Trim, IsUuidText;
    if msgs[i].Decoded? {
      var e := msgs[i].event;
      FilledIff(e.eventId);
      FilledIff(e.sourceService);
      FilledIff(e.entityType);
      FilledIff(e.entityId);
    }
    AttemptsBound(reply, i, 1, tries);
  }

  // After errors only, the attempts counted from the first are those counted from here.
  lemma {:induction false} AttemptsAfterErrors(reply: Handler, i: nat, k: nat, tries: nat)
    requires 1 <= k <= tries && forall j :: 1 <= j < k ==> reply(i, j) == Error
    ensures Attempts(reply, i, 1, tries) == Attempts(reply, i, k, tries)
  {
    if k > 1 {
      AttemptsAfterErrors(reply, i, k - 1, tries);
    }
  }

  // Call the handler until it settles the message or the tries are used up.
  method TryMessage(reply: Handler, i: nat, maxRetries: nat) returns (settled: bool, calls: nat)
    ensures settled ==> 1 <= calls <= maxRetries + 1 && SettledAt(reply, i, calls)
    ensures !settled ==> calls == maxRetries + 1 && FailsThroughout(reply, i, maxRetries + 1)
    ensures calls == Attempts(reply, i, 1, maxRetries + 1)
  {
    var attempt := 1;
    while attempt <= maxRetries + 1
      invariant 1 <= attempt <= maxRetries + 2
      invariant forall j :: 1 <= j < attempt ==> reply(i, j) == Error
    {
      var answer := reply(i, attempt);
      if answer == Done || answer == Deferred {
        AttemptsAfterErrors(reply, i, attempt, maxRetries + 1);
        return true, attempt;
      }
      attempt := attempt + 1;
    }
    AttemptsAfterErrors(reply, i, maxRetries + 1, maxRetries + 1);
    return false, maxRetries + 1;
  }

  // The marked messages are a prefix of the claim, all finished. An error means
  // that the first unmarked message failed at every allowed attempt; without an
  // error the whole claim is marked. The calls are those of the messages reached.
  method ConsumeClaim(msgs: seq<Message>, configuredRetries: int, reply: Handler)
    returns (marked: seq<nat>, calls: nat, failed: bool)
    ensures var tries := (if configuredRetries < 0 then 0 else configuredRetries) + 1;
            && |marked| <= |msgs|
            && (forall i :: 0 <= i < |marked| ==> marked[i] == i && Finished(msgs, reply, i, tries))
            && (failed <==> |marked| < |msgs|)
            && (failed ==> !Rejected(msgs[|marked|]) && FailsThroughout(reply, |marked|, tries))
            && calls == TotalCalls(msgs, reply, if failed then |marked| + 1 else |marked|, tries)
  {
    hide Rejected;
    var maxRetries := if configuredRetries < 0 then 0 else configuredRetries;
    ghost var tries := maxRetries + 1;
    marked, calls := [], 0;
    for i := 0 to |msgs|
      invariant |marked| == i && calls == TotalCalls(msgs, reply, i, tries)
      invariant forall j :: 0 <= j < i ==> marked[j] == j && Finished(msgs, reply, j, tries)
    {
      if Rejected(msgs[i]) {
        marked := marked + [i];
        continue;
      }
      var settled, n := TryMessage(reply, i, maxRetries);
      calls := calls + n;
      if !settled {
        return marked, calls, true;
      }
      marked := marked + [i];
    }
    failed := false;
  }
}
