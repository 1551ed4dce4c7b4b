/**
  The pull side of the transactional outbox: the `ingress_outbox` columns that
  the relay protocol reads and writes, and the lease, ack and nack statements.
  Each statement is one atomic step. Times are seconds on the database clock.
 */
module OutboxTable {
  import opened Wrappers

  datatype Status = Pending | Sent | Failed

  datatype OutboxRow = OutboxRow(
    status: Status,
    attempts: nat,
    nextRetry: Option<real>,
    leaseId: Option<Uuid>,
    leasedBy: Option<string>,
    leaseUntil: Option<real>,
    createdAt: real,
    updatedAt: Option<real>,
    publishedAt: Option<real>)

  // A draw of random(): 0 <= u < 1.
  type Draw = u: real | 0.0 <= u < 1.0 witness 0.0

  const MAX_ATTEMPTS: nat := 7
  const MAX_AGE: real := 28800.0 // eight hours
  const DEFAULT_LEASE_LIMIT: nat := 500
  const MAX_LEASE_LIMIT: nat := 1000
  const MAX_DELAY: real := 3600.0

  function ClampLimit(limit: int): (r: nat)
    ensures 1 <= r <= MAX_LEASE_LIMIT
  {
    if limit <= 0 then DEFAULT_LEASE_LIMIT else if limit > MAX_LEASE_LIMIT then MAX_LEASE_LIMIT else limit
  }

  function Pow2(n: nat): (r: real)
    ensures r >= 1.0
  {
    if n == 0 then 1.0 else 2.0 * Pow2(n - 1)
  }

  function Min(x: real, y: real): real { if x <= y then x else y }

  function Max(x: real, y: real): real { if x >= y then x else y }

  function RetryDelay(attempts: nat, u: Draw): real {
    Min(MAX_DELAY, Max(1.0, Pow2(attempts))) * (0.8 + u * 0.4)
  }

  // ---- Lease ---------------------------------------------------------------

  predicate Eligible(row: OutboxRow, now: real) {
    && row.status == Pending
    && row.attempts < MAX_ATTEMPTS
    && (row.leaseUntil.None? || row.leaseUntil.value < now)
    && (row.nextRetry.None? || row.nextRetry.value <= now)
  }

  // Eligible rows that no concurrent statement has locked.
  function Ready(rows: map<Uuid, OutboxRow>, locked: set<Uuid>, now: real): set<Uuid> {
    set id <- rows | id !in locked && Eligible(rows[id], now)
  }

  // What a lease may pick: the oldest ready rows, oldest first, as many as the
  // limit allows.
  ghost predicate IsPick(rows: map<Uuid, OutboxRow>, locked: set<Uuid>, limit: int, now: real, picked: seq<Uuid>) {
    var ready := Ready(rows, locked, now);
    && (forall i, j :: 0 <= i < j < |picked| ==> picked[i] != picked[j])
    && (forall i :: 0 <= i < |picked| ==> picked[i] in ready)
    && |picked| == (if |ready| <= ClampLimit(limit) then |ready| else ClampLimit(limit))
    && (forall i, j :: 0 <= i < j < |picked| ==> rows[picked[i]].createdAt <= rows[picked[j]].createdAt)
    && (forall id, i | id in ready && id !in picked && 0 <= i < |picked| ::
          rows[picked[i]].createdAt <= rows[id].createdAt)
  }

  function LeaseRow(row: OutboxRow, lease: Uuid, relay: string, ttl: int, now: real): OutboxRow {
    row.(leaseId := Some(lease), leasedBy := Some(relay), leaseUntil := Some(now + ttl as real), updatedAt := Some(now))
  }

  function Leased(rows: map<Uuid, OutboxRow>, picked: seq<Uuid>, lease: Uuid, relay: string, ttl: int, now: real):
    map<Uuid, OutboxRow>
  {
    map id <- rows :: if id in picked then LeaseRow(rows[id], lease, relay, ttl, now) else rows[id]
  }

  // ---- Ack and nack --------------------------------------------------------

  predicate HeldBy(row: OutboxRow, lease: Uuid) {
    row.leaseId == Some(lease)
  }

  function AckRow(row: OutboxRow, now: real): OutboxRow {
    row.(status := Sent, publishedAt := Some(now), updatedAt := Some(now),
         leaseId := None, leasedBy := None, leaseUntil := None)
  }

  function Acked(rows: map<Uuid, OutboxRow>, lease: Uuid, ids: set<Uuid>, now: real): map<Uuid, OutboxRow> {
    map id <- rows :: if id in ids && HeldBy(rows[id], lease) then AckRow(rows[id], now) else rows[id]
  }

  predicate GivesUp(row: OutboxRow, now: real) {
    row.attempts + 1 >= MAX_ATTEMPTS || row.createdAt < now - MAX_AGE
  }

  function NackRow(row: OutboxRow, now: real, u: Draw): OutboxRow {
    row.(attempts := row.attempts + 1,
         updatedAt := Some(now),
         status := if GivesUp(row, now) then Failed else Pending,
         nextRetry := if GivesUp(row, now) then None else Some(now + RetryDelay(row.attempts, u)),
         leaseId := None, leasedBy := None, leaseUntil := None)
  }

  predicate Nackable(row: OutboxRow, lease: Uuid) {
    HeldBy(row, lease) && row.status == Pending
  }

  function Nacked(rows: map<Uuid, OutboxRow>, lease: Uuid, ids: set<Uuid>, now: real, draw: Uuid -> Draw):
    map<Uuid, OutboxRow>
  {
    map id <- rows :: if id in ids && Nackable(rows[id], lease) then NackRow(rows[id], now, draw(id)) else rows[id]
  }

  // ---- The table -----------------------------------------------------------

  datatype Lease = NoEvents | Lease(id: Uuid, until: Option<real>, events: seq<(Uuid, OutboxRow)>)

  lemma {:induction false} OldestExists(rows: map<Uuid, OutboxRow>, ids: set<Uuid>)
    requires ids != {} && ids <= rows.Keys
    ensures exists x :: x in ids && forall y <- ids :: rows[x].createdAt <= rows[y].createdAt
  {
    var z :| z in ids;
    var rest := ids - {z};
    if rest != {} {
      OldestExists(rows, rest);
      var x :| x in rest && forall y <- rest :: rows[x].createdAt <= rows[y].createdAt;
      var best := if rows[x].createdAt <= rows[z].createdAt then x else z;
      assert forall y <- ids :: rows[best].createdAt <= rows[y].createdAt;
    } else {
      assert ids == {z};
      assert forall y <- ids :: rows[z].createdAt <= rows[y].createdAt;
    }
  }

  class Table {
    var rows: map<Uuid, OutboxRow>

    constructor ()
      ensures rows == map[]
    {
      rows := map[];
    }

    // `lease` is the fresh lease id, `locked` the rows other statements hold.
    method LeaseOutboxBatch(limit: int, ttl: int, relay: string, lease: Uuid, now: real, locked: set<Uuid>)
      returns (granted: Lease, ghost picked: seq<Uuid>)
      modifies this
      ensures IsPick(old(rows), locked, limit, now, picked)
      ensures rows == Leased(old(rows), picked, lease, relay, ttl, now)
      ensures picked == [] ==> granted == NoEvents
      ensures picked != [] ==>
                && granted.Lease? && granted.id == lease && granted.until == Some(now + ttl as real)
                && |granted.events| == |picked|
                && forall i :: 0 <= i < |picked| ==> granted.events[i] == (picked[i], rows[picked[i]])
    {
      var ids := PickOldest(limit, now, locked);
      picked := ids;
      rows := map id <- rows :: if id in ids then LeaseRow(rows[id], lease, relay, ttl, now) else rows[id];
      var events: seq<(Uuid, OutboxRow)> := [];
      var until: Option<real> := None;
      for i := 0 to |ids|
        invariant |events| == i
        invariant forall k :: 0 <= k < i ==> events[k] == (ids[k], rows[ids[k]])
        invariant until == if i == 0 then None else Some(now + ttl as real)
      {
        var row := rows[ids[i]];
        if row.leaseUntil.Some? && until.None? {
          until := row.leaseUntil;
        }
        events := events + [(ids[i], row)];
      }
      if |events| == 0 {
        return NoEvents, ids;
      }
      return Lease(lease, until, events), ids;
    }

    // The statement's selection: ready rows in order of creation, up to the limit.
    method PickOldest(limit: int, now: real, locked: set<Uuid>) returns (picked: seq<Uuid>)
      ensures IsPick(rows, locked, limit, now, picked)
    {
      var left := Ready(rows, locked, now);
      ghost var ready := left;
      picked := [];
      while |picked| < ClampLimit(limit) && left != {}
        invariant left <= ready && |picked| + |left| == |ready|
        invariant |picked| <= ClampLimit(limit)
        invariant forall i :: 0 <= i < |picked| ==> picked[i] in ready && picked[i] !in left
        invariant forall id :: id in ready && id !in picked ==> id in left
        invariant forall i, j :: 0 <= i < j < |picked| ==> picked[i] != picked[j]
        invariant forall i, j :: 0 <= i < j < |picked| ==> rows[picked[i]].createdAt <= rows[picked[j]].createdAt
        invariant forall id, i | id in left && 0 <= i < |picked| :: rows[picked[i]].createdAt <= rows[id].createdAt
      {
        OldestExists(rows, left);
        var next :| next in left && forall y <- left :: rows[next].createdAt <= rows[y].createdAt;
        picked := picked + [next];
        left := left - {next};
      }
    }

    method AckOutboxBatch(lease: Uuid, ids: set<Uuid>, now: real) returns (updated: nat)
      modifies this
      ensures rows == Acked(old(rows), lease, ids, now)
      ensures updated == |(set id <- old(rows) | id in ids && HeldBy(old(rows)[id], lease))|
    {
      var hit := set id <- rows | id in ids && HeldBy(rows[id], lease);
      rows := map id <- rows :: if id in hit then AckRow(rows[id], now) else rows[id];
      updated := |hit|;
    }

    method NackOutboxBatch(lease: Uuid, ids: set<Uuid>, now: real, draw: Uuid -> Draw) returns (updated: nat)
      modifies this
      ensures rows == Nacked(old(rows), lease, ids, now, draw)
      ensures updated == |(set id <- old(rows) | id in ids && Nackable(old(rows)[id], lease))|
    {
      var hit := set id <- rows | id in ids && Nackable(rows[id], lease);
      rows := map id <- rows :: if id in hit then NackRow(rows[id], now, draw(id)) else rows[id];
      updated := |hit|;
    }
  }

  // When creation times differ, the pick is determined: the same rows in the
  // same order, whatever the statement's plan.
  lemma PickIsUnique(rows: map<Uuid, OutboxRow>, locked: set<Uuid>, limit: int, now: real, p: seq<Uuid>, q: seq<Uuid>)
    requires forall x, y | x in rows && y in rows && x != y :: rows[x].createdAt != rows[y].createdAt
    requires IsPick(rows, locked, limit, now, p) && IsPick(rows, locked, limit, now, q)
    ensures p == q
  {
    PickSubset(rows, locked, limit, now, p, q);
    PickSubset(rows, locked, limit, now, q, p);
    SortedUnique(rows, p, q);
  }

  function Elements(s: seq<Uuid>): set<Uuid> { set x <- s }

  lemma {:induction false} DistinctCard(s: seq<Uuid>)
    requires forall i, j :: 0 <= i < j < |s| ==> s[i] != s[j]
    ensures |Elements(s)| == |s|
  {
    if s != [] {
      var n := |s| - 1;
      DistinctCard(s[..n]);
      assert s[n] !in Elements(s[..n]);
      assert Elements(s) == Elements(s[..n]) + {s[n]};
    }
  }

  lemma ProperSubsetSmaller(b: set<Uuid>, a: set<Uuid>, x: Uuid)
    requires b <= a && x in a && x !in b
    ensures |b| < |a|
  {
    assert a == b + (a - b) && x in a - b;
  }

  // A set of the same size that misses an element of the other has one of its own.
  lemma SameSizeSwap(a: set<Uuid>, b: set<Uuid>, x: Uuid) returns (y: Uuid)
    requires |a| == |b| && x in a && x !in b
    ensures y in b && y !in a
  {
    if b <= a {
      ProperSubsetSmaller(b, a, x);
      assert false;
    }
    y :| y in b && y !in a;
  }

  lemma PickSubset(rows: map<Uuid, OutboxRow>, locked: set<Uuid>, limit: int, now: real, p: seq<Uuid>, q: seq<Uuid>)
    requires forall x, y | x in rows && y in rows && x != y :: rows[x].createdAt != rows[y].createdAt
    requires IsPick(rows, locked, limit, now, p) && IsPick(rows, locked, limit, now, q)
    ensures forall x <- p :: x in q
  {
    forall x <- p ensures x in q {
      if x !in q {
        DistinctCard(p);
        DistinctCard(q);
        var y := SameSizeSwap(Elements(p), Elements(q), x);
        assert false;
      }
    }
  }

  lemma {:induction false} SortedUnique(rows: map<Uuid, OutboxRow>, p: seq<Uuid>, q: seq<Uuid>)
    requires |p| == |q|
    requires (forall x <- p :: x in rows && x in q) && (forall x <- q :: x in rows && x in p)
    requires forall x, y | x in rows && y in rows && x != y :: rows[x].createdAt != rows[y].createdAt
    requires forall i, j :: 0 <= i < j < |p| ==> p[i] != p[j] && rows[p[i]].createdAt <= rows[p[j]].createdAt
    requires forall i, j :: 0 <= i < j < |q| ==> q[i] != q[j] && rows[q[i]].createdAt <= rows[q[j]].createdAt
    ensures p == q
  {
    if p != [] {
      assert p[0] in q;
      assert q[0] in p;
      var i :| 0 <= i < |q| && q[i] == p[0];
      var j :| 0 <= j < |p| && p[j] == q[0];
      assert rows[p[0]].createdAt <= rows[p[j]].createdAt && rows[q[0]].createdAt <= rows[q[i]].createdAt;
      assert p[0] == q[0];
      var p', q' := p[1..], q[1..];
      forall x <- p' ensures x in q' {
        assert x in p && x != p[0];
      }
      forall x <- q' ensures x in p' {
        assert x in q && x != q[0];
      }
      SortedUnique(rows, p', q');
    }
  }
}
