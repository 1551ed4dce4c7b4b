/**
  Whole runs of the outbox relay protocol: any number of relays lease, ack and
  nack, in any order and at any time, while rows are inserted and the clock
  moves forward. Every lease id is fresh.
 */
module OutboxRuns {
  import opened Wrappers
  import opened OutboxTable

  datatype State = State(rows: map<Uuid, OutboxRow>, now: real, used: set<Uuid>)

  datatype Action =
    | Tick(elapsed: real)
    | Insert(id: Uuid, createdAt: real)
    | Grant(lease: Uuid, relay: string, limit: int, ttl: int, locked: set<Uuid>, picked: seq<Uuid>)
    | Ack(lease: Uuid, ids: set<Uuid>)
    | Nack(lease: Uuid, ids: set<Uuid>, draw: Uuid -> Draw)

  const START: State := State(map[], 0.0, {})

  function NewRow(createdAt: real): OutboxRow {
    OutboxRow(Pending, 0, None, None, None, None, createdAt, None, None)
  }

  ghost predicate Enabled(s: State, a: Action) {
    match a
    case Tick(d) => d >= 0.0
    case Insert(id, _) => id !in s.rows
    case Grant(lease, _, limit, _, locked, picked) =>
      lease !in s.used && IsPick(s.rows, locked, limit, s.now, picked)
    case _ => true
  }

  // One atomic step; an action that is not possible changes nothing.
  ghost function Step(s: State, a: Action): State {
    if !Enabled(s, a) then s
    else match a
      case Tick(d) => s.(now := s.now + d)
      case Insert(id, createdAt) => s.(rows := s.rows[id := NewRow(createdAt)])
      case Grant(lease, relay, _, ttl, _, picked) =>
        s.(rows := Leased(s.rows, picked, lease, relay, ttl, s.now), used := s.used + {lease})
      case Ack(lease, ids) => s.(rows := Acked(s.rows, lease, ids, s.now))
      case Nack(lease, ids, draw) => s.(rows := Nacked(s.rows, lease, ids, s.now, draw))
  }

  ghost function After(acts: seq<Action>): State {
    if acts == [] then START else Step(After(acts[..|acts| - 1]), acts[|acts| - 1])
  }

  lemma AfterSnoc(acts: seq<Action>, a: Action)
    ensures After(acts + [a]) == Step(After(acts), a)
  {
    assert (acts + [a])[..|acts|] == acts;
  }

  // ---- What every run keeps ------------------------------------------------

  predicate RowOk(row: OutboxRow, used: set<Uuid>) {
    && row.attempts <= MAX_ATTEMPTS
    && (row.status == Pending ==> row.attempts < MAX_ATTEMPTS)
    && (row.status != Pending ==> row.leaseId == None && row.leasedBy == None && row.leaseUntil == None)
    && (row.leaseId.Some? <==> row.leaseUntil.Some?)
    && (row.leaseId.Some? ==> row.leaseId.value in used)
  }

  ghost predicate Inv(s: State) {
    forall x <- s.rows :: RowOk(s.rows[x], s.used)
  }

  lemma {:induction false} EveryRunKeepsInvariant(acts: seq<Action>)
    ensures Inv(After(acts))
  {
    if acts != [] {
      EveryRunKeepsInvariant(acts[..|acts| - 1]);
    }
  }

  // SENT and FAILED are final: nothing about such a row ever changes again.
  lemma {:induction false} FinalRowsStay(acts: seq<Action>, more: seq<Action>, x: Uuid)
    requires x in After(acts).rows && After(acts).rows[x].status != Pending
    ensures x in After(acts + more).rows && After(acts + more).rows[x] == After(acts).rows[x]
  {
    if more == [] {
      assert acts + more == acts;
    } else {
      var init := more[..|more| - 1];
      FinalRowsStay(acts, init, x);
      EveryRunKeepsInvariant(acts + init);
      assert acts + more == (acts + init) + [more[|more| - 1]];
      AfterSnoc(acts + init, more[|more| - 1]);
    }
  }

  // ---- A leased event is not handed out twice ------------------------------

  ghost predicate Delivers(s: State, a: Action, x: Uuid) {
    a.Grant? && Enabled(s, a) && x in a.picked
  }

  predicate Settles(a: Action, lease: Uuid, x: Uuid) {
    (a.Ack? || a.Nack?) && a.lease == lease && x in a.ids
  }

  lemma StepKeepsHolder(s: State, a: Action, x: Uuid, lease: Uuid)
    requires x in s.rows && s.rows[x].leaseId == Some(lease) && s.rows[x].leaseUntil.Some?
    requires s.now <= s.rows[x].leaseUntil.value && !Settles(a, lease, x)
    ensures x in Step(s, a).rows && Step(s, a).rows[x] == s.rows[x]
  {
  }

  // Until its lease is acked or nacked, or runs out, the row stays as leased.
  lemma {:induction false} HeldUntilSettled(acts: seq<Action>, g: Action, more: seq<Action>, x: Uuid)
    requires Delivers(After(acts), g, x)
    requires After(acts + [g] + more).now <= After(acts).now + g.ttl as real
    requires forall i :: 0 <= i < |more| ==> !Settles(more[i], g.lease, x)
    ensures x in After(acts + [g] + more).rows
    ensures After(acts + [g] + more).rows[x]
         == LeaseRow(After(acts).rows[x], g.lease, g.relay, g.ttl, After(acts).now)
  {
    AfterSnoc(acts, g);
    if more == [] {
      assert acts + [g] + more == acts + [g];
    } else {
      var init, last := more[..|more| - 1], more[|more| - 1];
      assert acts + [g] + more == (acts + [g] + init) + [last];
      AfterSnoc(acts + [g] + init, last);
      HeldUntilSettled(acts, g, init, x);
      StepKeepsHolder(After(acts + [g] + init), last, x, g.lease);
    }
  }

  // An event delivered under a lease that is valid until u is delivered again
  // at a time no later than u only if that lease acked or nacked it first.
  lemma NoSecondDelivery(acts: seq<Action>, g: Action, more: seq<Action>, again: Action, x: Uuid)
    requires Delivers(After(acts), g, x)
    requires Delivers(After(acts + [g] + more), again, x)
    requires After(acts + [g] + more).now <= After(acts).now + g.ttl as real
    ensures exists i :: 0 <= i < |more| && Settles(more[i], g.lease, x)
  {
    if forall i :: 0 <= i < |more| ==> !Settles(more[i], g.lease, x) {
      HeldUntilSettled(acts, g, more, x);
    }
  }

  // ---- A superseded lease is dead ------------------------------------------

  // Once a used lease no longer holds a row, it never holds it again.
  lemma {:induction false} LostLeaseIsDead(acts: seq<Action>, more: seq<Action>, x: Uuid, lease: Uuid)
    requires x in After(acts).rows && lease in After(acts).used && !HeldBy(After(acts).rows[x], lease)
    ensures var s := After(acts + more);
            x in s.rows && lease in s.used && !HeldBy(s.rows[x], lease)
  {
    if more == [] {
      assert acts + more == acts;
    } else {
      var init := more[..|more| - 1];
      LostLeaseIsDead(acts, init, x, lease);
      assert acts + more == (acts + init) + [more[|more| - 1]];
      AfterSnoc(acts + init, more[|more| - 1]);
    }
  }

  // A later delivery supersedes the earlier lease for good: from then on an ack
  // or nack in the earlier lease's name leaves the row as it is.
  lemma SupersededLeaseChangesNothing(
      acts: seq<Action>, g: Action, more: seq<Action>, again: Action, rest: seq<Action>, x: Uuid, a: Action)
    requires Delivers(After(acts), g, x) && Delivers(After(acts + [g] + more), again, x)
    requires Settles(a, g.lease, x)
    ensures var s := After(acts + [g] + more + [again] + rest);
            x in s.rows && Step(s, a).rows[x] == s.rows[x]
  {
    AfterSnoc(acts, g);
    UsedStaysUsed(acts + [g], more, g.lease);
    AfterSnoc(acts + [g] + more, again);
    LostLeaseIsDead(acts + [g] + more + [again], rest, x, g.lease);
  }

  lemma {:induction false} UsedStaysUsed(acts: seq<Action>, more: seq<Action>, lease: Uuid)
    requires lease in After(acts).used
    ensures lease in After(acts + more).used
  {
    if more == [] {
      assert acts + more == acts;
    } else {
      UsedStaysUsed(acts, more[..|more| - 1], lease);
      assert acts + more == (acts + more[..|more| - 1]) + [more[|more| - 1]];
      AfterSnoc(acts + more[..|more| - 1], more[|more| - 1]);
    }
  }

  // ---- Attempts and delays -------------------------------------------------

  predicate Nacks(s: State, a: Action, x: Uuid) {
    a.Nack? && x in s.rows && x in a.ids && Nackable(s.rows[x], a.lease)
  }

  // The delay that an action schedules for x, if any.
  function DelayOf(s: State, a: Action, x: Uuid): real {
    if Nacks(s, a, x) && !GivesUp(s.rows[x], s.now) then RetryDelay(s.rows[x].attempts, a.draw(x)) else 0.0
  }

  ghost function TotalDelay(acts: seq<Action>, x: Uuid): real {
    if acts == [] then 0.0
    else
      var init := acts[..|acts| - 1];
      TotalDelay(init, x) + DelayOf(After(init), acts[|acts| - 1], x)
  }

  ghost function NackCount(acts: seq<Action>, x: Uuid): nat {
    if acts == [] then 0
    else
      var init := acts[..|acts| - 1];
      NackCount(init, x) + if Nacks(After(init), acts[|acts| - 1], x) then 1 else 0
  }

  lemma SmallPowers()
    ensures Pow2(0) == 1.0 && Pow2(1) == 2.0 && Pow2(2) == 4.0 && Pow2(3) == 8.0
    ensures Pow2(4) == 16.0 && Pow2(5) == 32.0 && Pow2(6) == 64.0
  {
    assert Pow2(3) == 8.0;
    assert Pow2(5) == 32.0;
  }

  // Every delay that is scheduled at all lies between 0.8 and 38.4 seconds, so
  // the hour-long cap is never in force.
  lemma ScheduledDelayRange(attempts: nat, u: Draw)
    requires attempts + 1 < MAX_ATTEMPTS
    ensures 0.8 <= 0.8 * Pow2(attempts) <= RetryDelay(attempts, u) < 1.2 * Pow2(attempts) <= 38.4
  {
    SmallPowers();
    assert Pow2(attempts) <= 32.0;
    var p := Pow2(attempts);
    assert RetryDelay(attempts, u) == p * (0.8 + u * 0.4);
    assert 0.8 <= 0.8 + u * 0.4 < 1.2;
    ScaleStrict(p, 0.8 + u * 0.4, 1.2);
    ScaleStrict(p, 0.7, 0.8 + u * 0.4);
    assert p * (0.8 + u * 0.4) == p * 0.8 + p * (u * 0.4);
    ScaleNonNeg(p, u * 0.4);
  }

  lemma ScaleStrict(p: real, x: real, y: real)
    requires p >= 1.0 && x < y
    ensures p * x < p * y
  {
  }

  lemma ScaleNonNeg(p: real, x: real)
    requires p >= 0.0 && x >= 0.0
    ensures p * x >= 0.0
  {
  }

  function Budget(attempts: nat): real {
    1.2 * (Pow2(if attempts < MAX_ATTEMPTS then attempts else MAX_ATTEMPTS - 1) - 1.0)
  }

  lemma StepSpendsBudget(s: State, a: Action, x: Uuid, spent: real)
    requires Inv(s) && x in s.rows
    requires spent == 0.0 || spent < Budget(s.rows[x].attempts)
    ensures x in Step(s, a).rows
    ensures Step(s, a).rows[x].attempts == s.rows[x].attempts + if Nacks(s, a, x) then 1 else 0
    ensures var total := spent + DelayOf(s, a, x);
            total == 0.0 || total < Budget(Step(s, a).rows[x].attempts)
  {
    if Nacks(s, a, x) {
      SmallPowers();
      if !GivesUp(s.rows[x], s.now) {
        ScheduledDelayRange(s.rows[x].attempts, a.draw(x));
      }
    }
  }

  // Attempts count the effective nacks, seven at most; all the delays ever
  // scheduled for one event add up to less than 75.6 seconds.
  lemma {:induction false} DelaysAreBounded(acts: seq<Action>, x: Uuid)
    ensures x !in After(acts).rows ==> NackCount(acts, x) == 0 && TotalDelay(acts, x) == 0.0
    ensures x in After(acts).rows ==> NackCount(acts, x) == After(acts).rows[x].attempts
    ensures x in After(acts).rows ==>
              TotalDelay(acts, x) == 0.0 || TotalDelay(acts, x) < Budget(After(acts).rows[x].attempts)
    ensures NackCount(acts, x) <= MAX_ATTEMPTS && TotalDelay(acts, x) < 75.6
  {
    EveryRunKeepsInvariant(acts);
    if acts != [] {
      var init := acts[..|acts| - 1];
      DelaysAreBounded(init, x);
      EveryRunKeepsInvariant(init);
      if x in After(init).rows {
        StepSpendsBudget(After(init), acts[|acts| - 1], x, TotalDelay(init, x));
      }
    }
    BudgetBound();
  }

  lemma BudgetBound()
    ensures forall n: nat | n <= MAX_ATTEMPTS :: Budget(n) <= 75.6
  {
    SmallPowers();
  }

  // ---- The work left in the table ------------------------------------------

  ghost function Remaining(rows: map<Uuid, OutboxRow>, ids: set<Uuid>): int
    requires ids <= rows.Keys
  {
    if ids == {} then 0
    else var x :| x in ids; MAX_ATTEMPTS - rows[x].attempts + Remaining(rows, ids - {x})
  }

  lemma {:induction false} RemainingCompare(before: map<Uuid, OutboxRow>, after: map<Uuid, OutboxRow>, ids: set<Uuid>)
    requires ids <= before.Keys && ids <= after.Keys
    requires forall x <- ids :: after[x].attempts >= before[x].attempts
    ensures Remaining(after, ids) <= Remaining(before, ids)
    ensures (exists x <- ids :: after[x].attempts > before[x].attempts) ==> Remaining(after, ids) < Remaining(before, ids)
  {
    if ids != {} {
      var x :| x in ids && Remaining(before, ids) == MAX_ATTEMPTS - before[x].attempts + Remaining(before, ids - {x})
                        && Remaining(after, ids) == MAX_ATTEMPTS - after[x].attempts + Remaining(after, ids - {x});
      RemainingCompare(before, after, ids - {x});
      if (exists y <- ids :: after[y].attempts > before[y].attempts) && after[x].attempts == before[x].attempts {
        var y :| y in ids && after[y].attempts > before[y].attempts;
        assert y in ids - {x};
      }
    }
  }

  // An effective nack strictly reduces the attempts left in the whole table;
  // no other step changes an existing row's attempts.
  lemma NackReducesRemaining(acts: seq<Action>, a: Action)
    ensures var s := After(acts);
            && s.rows.Keys <= Step(s, a).rows.Keys
            && Remaining(Step(s, a).rows, s.rows.Keys) <= Remaining(s.rows, s.rows.Keys)
            && ((exists x :: Nacks(s, a, x)) <==>
                  Remaining(Step(s, a).rows, s.rows.Keys) < Remaining(s.rows, s.rows.Keys))
  {
    var s := After(acts);
    var s' := Step(s, a);
    RemainingCompare(s.rows, s'.rows, s.rows.Keys);
    if x :| Nacks(s, a, x) {
      assert s'.rows[x].attempts > s.rows[x].attempts;
    } else {
      forall x <- s.rows ensures s'.rows[x].attempts == s.rows[x].attempts {
        assert !Nacks(s, a, x);
      }
      RemainingCompare(s'.rows, s.rows, s.rows.Keys);
    }
  }
}
