/**
  When an event is handed out over a whole run, and what becomes of it in the end:
  it waits out its backoff, it gets its turn afterwards, and its final status tells
  how it was settled.
 */
module OutboxTiming {
  import opened Wrappers
  import opened OutboxTable
  import opened OutboxRuns

  // ---- Not before its backoff is over ------------------------------------------------

  // The event cannot be handed out before `due`.
  predicate Waits(s: State, x: Uuid, due: real) {
    && x in s.rows
    && var row := s.rows[x];
       || row.status != Pending
       || s.now >= due
       || (row.leaseUntil.None? && row.nextRetry.Some? && row.nextRetry.value >= due)
  }

  lemma StepWaits(s: State, a: Action, x: Uuid, due: real)
    requires Inv(s) && Waits(s, x, due)
    ensures Waits(Step(s, a), x, due)
  {
  }

  lemma {:induction false} RunWaits(acts: seq<Action>, more: seq<Action>, x: Uuid, due: real)
    requires Waits(After(acts), x, due)
    ensures Waits(After(acts + more), x, due)
  {
    hide Waits, Inv;
    if more == [] {
      assert acts + more == acts;
    } else {
      var init, last := more[..|more| - 1], more[|more| - 1];
      RunWaits(acts, init, x, due);
      EveryRunKeepsInvariant(acts + init);
      assert acts + more == (acts + init) + [last];
      AfterSnoc(acts + init, last);
      StepWaits(After(acts + init), last, x, due);
    }
  }

  lemma NackedWaits(s: State, n: Action, x: Uuid)
    requires Inv(s) && Nacks(s, n, x)
    ensures Waits(Step(s, n), x, s.now + 0.8 * Pow2(s.rows[x].attempts))
  {
    if !GivesUp(s.rows[x], s.now) {
      ScheduledDelayRange(s.rows[x].attempts, n.draw(x));
    }
  }

  // After its n-th nack an event is handed out again no sooner than 0.8 * 2^(n - 1)
  // seconds later, whatever the relays do in between.
  lemma NoDeliveryBeforeBackoff(acts: seq<Action>, n: Action, more: seq<Action>, again: Action, x: Uuid)
    requires Nacks(After(acts), n, x)
    requires Delivers(After(acts + [n] + more), again, x)
    ensures After(acts + [n] + more).now >= After(acts).now + 0.8 * Pow2(After(acts).rows[x].attempts)
  {
    EveryRunKeepsInvariant(acts);
    AfterSnoc(acts, n);
    NackedWaits(After(acts), n, x);
    RunWaits(acts + [n], more, x, After(acts).now + 0.8 * Pow2(After(acts).rows[x].attempts));
  }

  // Over the draws, the delay before an event is tried again takes every value from
  // 0.8 * 2^n seconds up to 1.2 * 2^n, and no other, while it is not given up.
  lemma DelayIsIff(attempts: nat, delay: real)
    requires attempts < 6
    ensures (exists u: Draw :: RetryDelay(attempts, u) == delay) <==> 0.8 * Pow2(attempts) <= delay < 1.2 * Pow2(attempts)
  {
    hide Pow2;
    var p := Pow2(attempts);
    forall u: Draw ensures 0.8 * p <= RetryDelay(attempts, u) < 1.2 * p {
      ScheduledDelayRange(attempts, u);
    }
    if 0.8 * p <= delay < 1.2 * p {
      var u := (delay / p - 0.8) / 0.4;
      Quotient(delay, p);
      ScheduledDelayRange(attempts, 0.0);
      assert RetryDelay(attempts, u) == p * (0.8 + u * 0.4) == p * (delay / p);
    }
  }

  lemma Quotient(d: real, p: real)
    requires p >= 1.0 && 0.8 * p <= d < 1.2 * p
    ensures 0.8 <= d / p < 1.2 && p * (d / p) == d
  {
    var q := d / p;
    assert p * q == d;
    if q < 0.8 {
      ScaleStrict(p, q, 0.8);
    }
    if q > 1.2 {
      ScaleStrict(p, 1.2, q);
    }
  }

  // ---- But afterwards it gets its turn ---------------------------------------------

  // The grant hands the event out, or as many others, none of them younger, as its
  // limit allows: 500 when it names none, and never more than 1000.
  ghost predicate GetsItsTurn(s: State, g: Action, x: Uuid)
    requires g.Grant? && Enabled(s, g) && x in s.rows
  {
    || x in g.picked
    || (&& |g.picked| == (if g.limit <= 0 then 500 else if g.limit > 1000 then 1000 else g.limit)
        && forall y <- g.picked :: s.rows[y].createdAt <= s.rows[x].createdAt)
  }

  lemma ReadyGetsItsTurn(s: State, g: Action, x: Uuid)
    requires g.Grant? && Enabled(s, g) && x in s.rows && x !in g.locked
    requires var row := s.rows[x];
             && row.status == Pending && row.attempts < 7
             && (row.leaseUntil.Some? ==> row.leaseUntil.value < s.now)
             && (row.nextRetry.Some? ==> row.nextRetry.value <= s.now)
    ensures GetsItsTurn(s, g, x)
  {
    var ready := Ready(s.rows, g.locked, s.now);
    assert x in ready;
    if x !in g.picked {
      DistinctCard(g.picked);
      assert Elements(g.picked) <= ready;
      ProperSubsetSmaller(Elements(g.picked), ready, x);
    }
  }

  // No event is scheduled more than 38.4 seconds ahead, and a fresh one not at all.
  ghost predicate Scheduled(s: State) {
    forall x <- s.rows ::
      && (s.rows[x].attempts == 0 ==> s.rows[x].nextRetry.None?)
      && (s.rows[x].nextRetry.Some? ==> s.rows[x].nextRetry.value < s.now + 38.4)
  }

  lemma StepSchedules(s: State, a: Action)
    requires Inv(s) && Scheduled(s)
    ensures Scheduled(Step(s, a))
  {
    forall x <- Step(s, a).rows
      ensures var row := Step(s, a).rows[x];
              && (row.attempts == 0 ==> row.nextRetry.None?)
              && (row.nextRetry.Some? ==> row.nextRetry.value < Step(s, a).now + 38.4)
    {
      if Nacks(s, a, x) && !GivesUp(s.rows[x], s.now) {
        ScheduledDelayRange(s.rows[x].attempts, a.draw(x));
      }
    }
  }

  lemma {:induction false} EveryRunSchedules(acts: seq<Action>)
    ensures Scheduled(After(acts))
  {
    if acts != [] {
      var init := acts[..|acts| - 1];
      EveryRunSchedules(init);
      EveryRunKeepsInvariant(init);
      StepSchedules(After(init), acts[|acts| - 1]);
    }
  }

  lemma AfterWaiting(acts: seq<Action>, d: real)
    requires d >= 0.0
    ensures After(acts + [Tick(d)]) == After(acts).(now := After(acts).now + d)
  {
    AfterSnoc(acts, Tick(d));
  }

  // In every run, a pending event that nobody holds gets its turn in any lease that
  // comes 38.4 seconds later; one that was never nacked, at once.
  lemma NobodyWaitsForever(acts: seq<Action>, d: real, g: Action, x: Uuid)
    requires x in After(acts).rows && After(acts).rows[x].status == Pending
    requires d >= 38.4 || (d >= 0.0 && NackCount(acts, x) == 0)
    requires var lease := After(acts).rows[x].leaseUntil; lease.Some? ==> lease.value < After(acts).now + d
    requires g.Grant? && Enabled(After(acts + [Tick(d)]), g) && x !in g.locked
    ensures x in After(acts + [Tick(d)]).rows && GetsItsTurn(After(acts + [Tick(d)]), g, x)
  {
    hide GetsItsTurn, Enabled;
    EveryRunKeepsInvariant(acts);
    EveryRunSchedules(acts);
    DelaysAreBounded(acts, x);
    AfterWaiting(acts, d);
    ReadyGetsItsTurn(After(acts + [Tick(d)]), g, x);
  }

  // A relay that dies holds its events back for no longer than its lease: once that
  // is over, they get their turn in the next one.
  lemma DeadRelaysLetGo(acts: seq<Action>, g: Action, d: real, next: Action, x: Uuid)
    requires Delivers(After(acts), g, x)
    requires d >= 0.0 && d > g.ttl as real
    requires next.Grant? && Enabled(After(acts + [g] + [Tick(d)]), next) && x !in next.locked
    ensures x in After(acts + [g] + [Tick(d)]).rows && GetsItsTurn(After(acts + [g] + [Tick(d)]), next, x)
  {
    hide GetsItsTurn;
    AfterSnoc(acts, g);
    AfterWaiting(acts + [g], d);
    var s := After(acts + [g] + [Tick(d)]);
    assert s.rows[x] == LeaseRow(After(acts).rows[x], g.lease, g.relay, g.ttl, After(acts).now);
    ReadyGetsItsTurn(s, next, x);
  }

  // ---- How an event ends -----------------------------------------------------------------

  // The holder of the event's lease acknowledges it.
  predicate Acks(s: State, a: Action, x: Uuid) {
    a.Ack? && x in s.rows && x in a.ids && s.rows[x].leaseId == Some(a.lease)
  }

  // The holder gives the event up: at its seventh attempt, or when it is more than
  // eight hours old.
  predicate Abandons(s: State, a: Action, x: Uuid) {
    && a.Nack? && x in s.rows && x in a.ids && s.rows[x].leaseId == Some(a.lease)
    && (s.rows[x].attempts == 6 || s.rows[x].createdAt < s.now - 8.0 * 3600.0)
  }

  ghost predicate WasAcked(acts: seq<Action>, x: Uuid) {
    acts != [] && var init := acts[..|acts| - 1]; Acks(After(init), acts[|acts| - 1], x) || WasAcked(init, x)
  }

  ghost predicate WasAbandoned(acts: seq<Action>, x: Uuid) {
    acts != [] && var init := acts[..|acts| - 1]; Abandons(After(init), acts[|acts| - 1], x) || WasAbandoned(init, x)
  }

  lemma StepSettles(s: State, a: Action, x: Uuid)
    requires Inv(s) && x in s.rows
    ensures x in Step(s, a).rows
    ensures Step(s, a).rows[x].status == if Acks(s, a, x) then Sent else if Abandons(s, a, x) then Failed else s.rows[x].status
    ensures Acks(s, a, x) || Abandons(s, a, x) ==> s.rows[x].status == Pending
  {
  }

  // In every run an event is SENT exactly when the holder of its lease acknowledged
  // it, and FAILED exactly when the holder gave it up: never both, and for good.
  lemma {:induction false} StatusTellsHistory(acts: seq<Action>, x: Uuid)
    ensures x !in After(acts).rows ==> !WasAcked(acts, x) && !WasAbandoned(acts, x)
    ensures x in After(acts).rows ==>
              && (After(acts).rows[x].status == Sent <==> WasAcked(acts, x))
              && (After(acts).rows[x].status == Failed <==> WasAbandoned(acts, x))
  {
    if acts != [] {
      var init, last := acts[..|acts| - 1], acts[|acts| - 1];
      StatusTellsHistory(init, x);
      EveryRunKeepsInvariant(init);
      if x in After(init).rows {
        StepSettles(After(init), last, x);
      }
    }
  }

  // What each step writes into the row of an event: a delivery its lease, an ack that it
  // was published, a nack one more attempt; the last two give the lease back.
  lemma StepsAreRecorded(acts: seq<Action>, a: Action, x: Uuid)
    requires x in After(acts).rows
    ensures x in After(acts + [a]).rows
    ensures var (s, row, row') := (After(acts), After(acts).rows[x], After(acts + [a]).rows[x]);
            && (Delivers(s, a, x) ==>
                  row' == row.(leaseId := Some(a.lease), leasedBy := Some(a.relay), leaseUntil := Some(s.now + a.ttl as real),
                               updatedAt := Some(s.now)))
            && (Acks(s, a, x) ==>
                  row' == row.(status := Sent, publishedAt := Some(s.now), updatedAt := Some(s.now),
                               leaseId := None, leasedBy := None, leaseUntil := None))
            && (Nacks(s, a, x) ==>
                  row'.attempts == row.attempts + 1 && row'.updatedAt == Some(s.now) && row'.createdAt == row.createdAt
                  && row'.publishedAt == row.publishedAt && row'.leaseId == None && row'.leasedBy == None && row'.leaseUntil == None)
            && (!Delivers(s, a, x) && !Acks(s, a, x) && !Nacks(s, a, x) ==> row' == row)
  {
    EveryRunKeepsInvariant(acts);
    AfterSnoc(acts, a);
  }
}
