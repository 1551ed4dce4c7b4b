/**
  The worker pool of a bulk upload. One producer walks through the file and
  either records a row's result at once or sends the row to a bounded queue;
  workers take rows from the queue, process them and record their results. The
  steps of producer and workers interleave in any order.
 */
module BulkPipeline {
  import opened Wrappers

  datatype Status = Accepted | Failed | Duplicate | Conflict | Rejected

  datatype BulkResult = BulkResult(row: int, status: Status, idempotencyKey: string)

  datatype BulkJob<P> = BulkJob(row: int, payload: P, idempotencyKey: string)

  // What the producer does next.
  datatype Emission<P> =
    | Record(result: BulkResult)
    | Send(job: BulkJob<P>)
    | Panic

  type Program<P> = seq<Emission<P>>

  const QUEUE_SIZE: nat := 500

  // How the ingest of one row ends.
  datatype Outcome = FingerprintMismatch | InFlight | OtherError | AlreadyStored | Stored

  function ResultFor<P>(job: BulkJob<P>, o: Outcome): BulkResult {
    var status := match o
      case FingerprintMismatch => Conflict
      case InFlight => Conflict
      case OtherError => Failed
      case AlreadyStored => Duplicate
      case Stored => Accepted;
    BulkResult(job.row, status, job.idempotencyKey)
  }

  // What a row is answered, by how its ingest ended: accepted when it was stored now,
  // a duplicate when it was stored before, a conflict when its key is taken by another
  // content or still being worked on, and failed otherwise; under its own number and key.
  predicate Answers<P>(r: BulkResult, job: BulkJob<P>, o: Outcome) {
    && r.row == job.row && r.idempotencyKey == job.idempotencyKey
    && (r.status == Accepted <==> o == Stored)
    && (r.status == Duplicate <==> o == AlreadyStored)
    && (r.status == Conflict <==> o == FingerprintMismatch || o == InFlight)
    && (r.status == Failed <==> o == OtherError)
  }

  datatype State<P> = State(
    pos: nat,
    queue: seq<BulkJob<P>>,
    workers: seq<Option<BulkJob<P>>>,
    finished: seq<(BulkJob<P>, Outcome)>,
    results: map<int, BulkResult>,
    crashed: bool)

  datatype Action = Produce | Take(w: nat) | Finish(w: nat, outcome: Outcome)

  predicate Enabled<P>(program: Program<P>, s: State<P>, a: Action) {
    match a
    case Produce => !s.crashed && s.pos < |program| && (program[s.pos].Send? ==> |s.queue| < QUEUE_SIZE)
    case Take(w) => w < |s.workers| && s.workers[w].None? && s.queue != []
    case Finish(w, _) => w < |s.workers| && s.workers[w].Some?
  }

  function Produced<P>(program: Program<P>, s: State<P>): State<P>
    requires s.pos < |program|
  {
    match program[s.pos]
    case Record(r) => s.(pos := s.pos + 1, results := s.results[r.row := r])
    case Send(job) => s.(pos := s.pos + 1, queue := s.queue + [job])
    case Panic => s.(crashed := true)
  }

  // One step; a step that is not possible changes nothing.
  function Step<P>(program: Program<P>, s: State<P>, a: Action): State<P> {
    if !Enabled(program, s, a) then s
    else match a
      case Produce => Produced(program, s)
      case Take(w) => s.(queue := s.queue[1..], workers := s.workers[w := Some(s.queue[0])])
      case Finish(w, o) =>
        var job := s.workers[w].value;
        s.(workers := s.workers[w := None], finished := s.finished + [(job, o)],
           results := s.results[job.row := ResultFor(job, o)])
  }

  function Start<P>(workers: nat): State<P> {
    State(0, [], seq(workers, _ => None), [], map[], false)
  }

  function Run<P>(program: Program<P>, workers: nat, acts: seq<Action>): State<P> {
    if acts == [] then Start(workers)
    else Step(program, Run(program, workers, acts[..|acts| - 1]), acts[|acts| - 1])
  }

  // The producer has closed the queue and every worker has returned.
  predicate Done<P>(program: Program<P>, s: State<P>) {
    !s.crashed && s.pos == |program| && s.queue == [] && forall w :: 0 <= w < |s.workers| ==> s.workers[w].None?
  }

  // ---- No job is lost or done twice ----------------------------------------------------

  ghost function Sent<P>(program: Program<P>): multiset<BulkJob<P>> {
    if program == [] then multiset{}
    else
      var last := program[|program| - 1];
      Sent(program[..|program| - 1]) + if last.Send? then multiset{last.job} else multiset{}
  }

  ghost function One<P>(v: Option<BulkJob<P>>): multiset<BulkJob<P>> {
    if v.Some? then multiset{v.value} else multiset{}
  }

  ghost function InHand<P>(workers: seq<Option<BulkJob<P>>>): multiset<BulkJob<P>> {
    if workers == [] then multiset{}
    else One(workers[0]) + InHand(workers[1..])
  }

  ghost function FinishedJobs<P>(finished: seq<(BulkJob<P>, Outcome)>): multiset<BulkJob<P>> {
    if finished == [] then multiset{}
    else FinishedJobs(finished[..|finished| - 1]) + multiset{finished[|finished| - 1].0}
  }

  // Every job sent so far is in the queue, in one worker's hands or finished.
  ghost predicate Conserved<P>(program: Program<P>, s: State<P>) {
    && s.pos <= |program|
    && Sent(program[..s.pos]) == multiset(s.queue) + InHand(s.workers) + FinishedJobs(s.finished)
  }

  // What a worker holds, apart from the rest.
  lemma {:induction false} OneWorker<P>(workers: seq<Option<BulkJob<P>>>, w: nat)
    requires w < |workers|
    ensures InHand(workers) == InHand(workers[w := None]) + One(workers[w])
  {
    var others := workers[w := None];
    if w > 0 {
      OneWorker(workers[1..], w - 1);
      assert others[1..] == workers[1..][w - 1 := None];
    } else {
      assert others[1..] == workers[1..];
    }
  }

  lemma {:induction false} IdleHoldNothing<P>(workers: seq<Option<BulkJob<P>>>)
    requires forall w :: 0 <= w < |workers| ==> workers[w].None?
    ensures InHand(workers) == multiset{}
  {
    if workers != [] {
      IdleHoldNothing(workers[1..]);
    }
  }

  lemma SendGrowsQueue<P>(queue: seq<BulkJob<P>>, job: BulkJob<P>, hands: multiset<BulkJob<P>>, gone: multiset<BulkJob<P>>)
    ensures multiset(queue) + hands + gone + multiset{job} == multiset(queue + [job]) + hands + gone
  {
    assert multiset(queue + [job]) == multiset(queue) + multiset{job};
  }

  lemma TakeShrinksQueue<P>(queue: seq<BulkJob<P>>, hands: multiset<BulkJob<P>>, gone: multiset<BulkJob<P>>)
    requires queue != []
    ensures multiset(queue) + hands + gone == multiset(queue[1..]) + (hands + multiset{queue[0]}) + gone
  {
    assert queue == [queue[0]] + queue[1..];
    assert multiset(queue) == multiset{queue[0]} + multiset(queue[1..]);
  }

  lemma ProduceConserves<P>(program: Program<P>, s: State<P>)
    requires Conserved(program, s) && Enabled(program, s, Produce)
    ensures Conserved(program, Step(program, s, Produce))
  {
    hide InHand, FinishedJobs;
    var past, e := program[..s.pos], program[s.pos];
    var now := program[..s.pos + 1];
    if !e.Panic? {
      assert now[..|now| - 1] == past && now[|now| - 1] == e;
      if e.Send? {
        assert Sent(now) == Sent(past) + multiset{e.job};
        SendGrowsQueue(s.queue, e.job, InHand(s.workers), FinishedJobs(s.finished));
      } else {
        assert Sent(now) == Sent(past) + multiset{};
        assert Sent(now) == Sent(past);
      }
    }
  }

  lemma TakeConserves<P>(program: Program<P>, s: State<P>, w: nat)
    requires Conserved(program, s) && Enabled(program, s, Take(w))
    ensures Conserved(program, Step(program, s, Take(w)))
  {
    var workers := s.workers[w := Some(s.queue[0])];
    OneWorker(workers, w);
    assert workers[w := None] == s.workers;
    TakeShrinksQueue(s.queue, InHand(s.workers), FinishedJobs(s.finished));
  }

  lemma FinishConserves<P>(program: Program<P>, s: State<P>, w: nat, o: Outcome)
    requires Conserved(program, s) && Enabled(program, s, Finish(w, o))
    ensures Conserved(program, Step(program, s, Finish(w, o)))
  {
    var s' := Step(program, s, Finish(w, o));
    OneWorker(s.workers, w);
    assert s'.finished[..|s.finished|] == s.finished;
  }

  lemma StepConserves<P>(program: Program<P>, s: State<P>, a: Action)
    requires Conserved(program, s)
    ensures Conserved(program, Step(program, s, a))
  {
    if Enabled(program, s, a) {
      match a
      case Produce => ProduceConserves(program, s);
      case Take(w) => TakeConserves(program, s, w);
      case Finish(w, o) => FinishConserves(program, s, w, o);
    }
  }

  lemma {:induction false} EveryRunConserves<P>(program: Program<P>, workers: nat, acts: seq<Action>)
    ensures Conserved(program, Run(program, workers, acts))
  {
    if acts == [] {
      IdleHoldNothing(Start<P>(workers).workers);
      assert program[..0] == [];
    } else {
      EveryRunConserves(program, workers, acts[..|acts| - 1]);
      StepConserves(program, Run(program, workers, acts[..|acts| - 1]), acts[|acts| - 1]);
    }
  }

  // ---- Results --------------------------------------------------------------------------

  function RowOf<P>(e: Emission<P>): int
    requires !e.Panic?
  {
    if e.Record? then e.result.row else e.job.row
  }

  predicate On<P>(e: Emission<P>, row: int) {
    !e.Panic? && RowOf(e) == row
  }

  // A row that is sent is neither sent again nor given a result at once.
  ghost predicate Unmixed<P>(program: Program<P>) {
    forall i, j :: 0 <= i < j < |program| && !program[i].Panic? && !program[j].Panic? && RowOf(program[i]) == RowOf(program[j]) ==>
      program[i].Record? && program[j].Record?
  }

  // The last result the producer itself records for this row.
  function Recorded<P>(program: Program<P>, row: int): Option<BulkResult> {
    if program == [] then None
    else
      var last := program[|program| - 1];
      if last.Record? && last.result.row == row then Some(last.result) else Recorded(program[..|program| - 1], row)
  }

  lemma {:induction false} RecordedFacts<P>(program: Program<P>, row: int)
    ensures Recorded(program, row).Some? <==> exists k :: 0 <= k < |program| && program[k].Record? && program[k].result.row == row
    ensures Recorded(program, row).Some? ==> Recorded(program, row).value.row == row
  {
    if program != [] {
      var init := program[..|program| - 1];
      RecordedFacts(init, row);
      forall k | 0 <= k < |init| ensures init[k] == program[k] {
      }
    }
  }

  lemma {:induction false} SentFacts<P>(program: Program<P>, job: BulkJob<P>)
    ensures job in Sent(program) <==> exists k :: 0 <= k < |program| && program[k] == Send(job)
  {
    if program != [] {
      var init := program[..|program| - 1];
      SentFacts(init, job);
      forall k | 0 <= k < |init| ensures init[k] == program[k] {
      }
    }
  }

  // When the producer always records the same for a row, that is what it records last.
  lemma {:induction false} RecordedIs<P>(program: Program<P>, row: int, result: BulkResult)
    requires forall k :: 0 <= k < |program| && program[k].Record? && program[k].result.row == row ==> program[k].result == result
    requires exists k :: 0 <= k < |program| && program[k].Record? && program[k].result.row == row
    ensures Recorded(program, row) == Some(result)
  {
    var init, last := program[..|program| - 1], program[|program| - 1];
    if !(last.Record? && last.result.row == row) {
      var k :| 0 <= k < |program| && program[k].Record? && program[k].result.row == row;
      assert init[k] == program[k];
      RecordedIs(init, row, result);
    }
  }

  // In an unmixed program no two jobs are for one row, and none for a recorded row.
  lemma {:induction false} SentRowsDiffer<P>(program: Program<P>, a: BulkJob<P>, b: BulkJob<P>)
    requires Unmixed(program) && a in Sent(program) && b in Sent(program) && a.row == b.row
    ensures a == b && Sent(program)[a] == 1 && Recorded(program, a.row).None?
  {
    var init, last := program[..|program| - 1], program[|program| - 1];
    SentFacts(program, a);
    SentFacts(program, b);
    SentFacts(init, a);
    SentFacts(init, b);
    RecordedFacts(program, a.row);
    if a in Sent(init) && b in Sent(init) {
      SentRowsDiffer(init, a, b);
    }
  }

  ghost predicate ResultsRight<P>(program: Program<P>, s: State<P>) {
    && s.pos <= |program|
    && (forall k :: 0 <= k < |s.finished| ==> FinishedRight(s, k))
    && (forall row :: RecordedRight(program[..s.pos], s, row))
    && (forall row <- s.results :: Explained(program[..s.pos], s, row))
  }

  predicate FinishedRight<P>(s: State<P>, k: nat)
    requires k < |s.finished|
  {
    var (job, o) := s.finished[k];
    job.row in s.results && Answers(s.results[job.row], job, o)
  }

  predicate RecordedRight<P>(past: Program<P>, s: State<P>, row: int) {
    Recorded(past, row).Some? ==> row in s.results && s.results[row] == Recorded(past, row).value
  }

  ghost predicate Explained<P>(past: Program<P>, s: State<P>, row: int) {
    Recorded(past, row).Some? || exists k :: 0 <= k < |s.finished| && s.finished[k].0.row == row
  }

  lemma {:induction false} FinishedFacts<P>(finished: seq<(BulkJob<P>, Outcome)>, job: BulkJob<P>)
    ensures job in FinishedJobs(finished) <==> exists k :: 0 <= k < |finished| && finished[k].0 == job
    ensures FinishedJobs(finished)[job] <= 1 ==>
              forall i, j :: 0 <= i < j < |finished| && finished[i].0 == job ==> finished[j].0 != job
  {
    if finished != [] {
      var init := finished[..|finished| - 1];
      FinishedFacts(init, job);
      forall k | 0 <= k < |init| ensures init[k] == finished[k] {
      }
    }
  }

  // The producer's next emission is for a row no finished job is for.
  lemma EmissionIsNew<P>(program: Program<P>, s: State<P>, k: nat)
    requires Unmixed(program) && Conserved(program, s) && s.pos < |program| && !program[s.pos].Panic?
    requires k < |s.finished|
    ensures s.finished[k].0.row != RowOf(program[s.pos])
  {
    var job := s.finished[k].0;
    FinishedFacts(s.finished, job);
    SentFacts(program[..s.pos], job);
    var i :| 0 <= i < s.pos && program[..s.pos][i] == Send(job);
    assert program[i] == Send(job);
  }

  lemma RecordKeepsResults<P>(program: Program<P>, s: State<P>)
    requires Unmixed(program) && Conserved(program, s) && ResultsRight(program, s)
    requires Enabled(program, s, Produce) && program[s.pos].Record?
    ensures ResultsRight(program, Step(program, s, Produce))
  {
    var s', past, now := Step(program, s, Produce), program[..s.pos], program[..s.pos + 1];
    assert now[..s.pos] == past;
    forall k | 0 <= k < |s'.finished| ensures FinishedRight(s', k) {
      EmissionIsNew(program, s, k);
      assert FinishedRight(s, k);
    }
    forall row ensures RecordedRight(now, s', row) {
      assert RecordedRight(past, s, row);
    }
    forall row <- s'.results ensures Explained(now, s', row) {
      if row != program[s.pos].result.row {
        assert Explained(past, s, row);
      }
    }
  }

  lemma SendKeepsResults<P>(program: Program<P>, s: State<P>)
    requires ResultsRight(program, s) && Enabled(program, s, Produce) && program[s.pos].Send?
    ensures ResultsRight(program, Step(program, s, Produce))
  {
    var s', past, now := Step(program, s, Produce), program[..s.pos], program[..s.pos + 1];
    assert now[..s.pos] == past;
    forall k | 0 <= k < |s'.finished| ensures FinishedRight(s', k) {
      assert FinishedRight(s, k);
    }
    forall row ensures RecordedRight(now, s', row) {
      assert RecordedRight(past, s, row);
    }
    forall row <- s'.results ensures Explained(now, s', row) {
      assert Explained(past, s, row);
    }
  }

  // A job in a worker's hands is for a row with no result yet.
  lemma JobInHandIsNew<P>(program: Program<P>, s: State<P>, w: nat)
    requires Unmixed(program) && Conserved(program, s) && w < |s.workers| && s.workers[w].Some?
    ensures Recorded(program[..s.pos], s.workers[w].value.row).None?
    ensures forall k :: 0 <= k < |s.finished| ==> s.finished[k].0.row != s.workers[w].value.row
  {
    hide Recorded, FinishedJobs, InHand, Sent;
    var job, past := s.workers[w].value, program[..s.pos];
    OneWorker(s.workers, w);
    assert job in InHand(s.workers);
    SentRowsDiffer(past, job, job);
    forall k | 0 <= k < |s.finished| ensures s.finished[k].0.row != job.row {
      var other := s.finished[k].0;
      FinishedFacts(s.finished, other);
      if other.row == job.row {
        SentRowsDiffer(past, job, other);
      }
    }
  }

  lemma FinishKeepsResults<P>(program: Program<P>, s: State<P>, w: nat, o: Outcome)
    requires Unmixed(program) && Conserved(program, s) && ResultsRight(program, s) && Enabled(program, s, Finish(w, o))
    ensures ResultsRight(program, Step(program, s, Finish(w, o)))
  {
    var s', past := Step(program, s, Finish(w, o)), program[..s.pos];
    JobInHandIsNew(program, s, w);
    forall k | 0 <= k < |s'.finished| ensures FinishedRight(s', k) {
      if k < |s.finished| {
        assert FinishedRight(s, k);
      }
    }
    forall row ensures RecordedRight(past, s', row) {
      assert RecordedRight(past, s, row);
    }
    forall row <- s'.results ensures Explained(past, s', row) {
      if row == s.workers[w].value.row {
        assert s'.finished[|s.finished|].0.row == row;
      } else {
        assert Explained(past, s, row);
        if Recorded(past, row).None? {
          var k :| 0 <= k < |s.finished| && s.finished[k].0.row == row;
          assert s'.finished[k].0.row == row;
        }
      }
    }
  }

  lemma OtherStepsKeepResults<P>(program: Program<P>, s: State<P>, s': State<P>)
    requires ResultsRight(program, s) && s'.pos == s.pos && s'.finished == s.finished && s'.results == s.results
    ensures ResultsRight(program, s')
  {
    forall k | 0 <= k < |s'.finished| ensures FinishedRight(s', k) {
      assert FinishedRight(s, k);
    }
    forall row ensures RecordedRight(program[..s.pos], s', row) {
      assert RecordedRight(program[..s.pos], s, row);
    }
    forall row <- s'.results ensures Explained(program[..s.pos], s', row) {
      assert Explained(program[..s.pos], s, row);
    }
  }

  lemma {:induction false} EveryRunIsRight<P>(program: Program<P>, workers: nat, acts: seq<Action>)
    requires Unmixed(program)
    ensures ResultsRight(program, Run(program, workers, acts))
  {
    if acts != [] {
      var init, a := acts[..|acts| - 1], acts[|acts| - 1];
      var s := Run(program, workers, init);
      EveryRunIsRight(program, workers, init);
      EveryRunConserves(program, workers, init);
      if Enabled(program, s, a) {
        match a
        case Produce =>
          if program[s.pos].Record? {
            RecordKeepsResults(program, s);
          } else if program[s.pos].Send? {
            SendKeepsResults(program, s);
          } else {
            OtherStepsKeepResults(program, s, Step(program, s, a));
          }
        case Take(w) =>
          OtherStepsKeepResults(program, s, Step(program, s, a));
        case Finish(w, o) =>
          FinishKeepsResults(program, s, w, o);
      }
    } else {
      assert program[..0] == [];
    }
  }

  // Job number k of those finished is this one, and no other is.
  ghost predicate FinishedOnce<P>(s: State<P>, job: BulkJob<P>, k: nat) {
    && k < |s.finished| && s.finished[k].0 == job
    && forall i :: 0 <= i < |s.finished| && s.finished[i].0 == job ==> i == k
  }

  // The job has been processed exactly once, and its row holds the result of that.
  ghost predicate ProcessedOnce<P>(s: State<P>, job: BulkJob<P>) {
    exists k: nat :: FinishedOnce(s, job, k) && job.row in s.results && Answers(s.results[job.row], job, s.finished[k].1)
  }

  // When all is done, in whatever order it was done: every job that was sent has
  // been processed exactly once and its row holds the result of that, every row
  // the producer settled holds what it recorded last, and no other row has a result.
  lemma DoneIsComplete<P>(program: Program<P>, workers: nat, acts: seq<Action>)
    requires Unmixed(program) && Done(program, Run(program, workers, acts))
    ensures var s := Run(program, workers, acts);
            forall i :: 0 <= i < |program| && program[i].Send? ==> ProcessedOnce(s, program[i].job)
    ensures var s := Run(program, workers, acts);
            forall row :: RecordedRight(program, s, row)
    ensures var s := Run(program, workers, acts);
            forall row :: row in s.results <==> exists i :: 0 <= i < |program| && On(program[i], row)
  {
    var s := Run(program, workers, acts);
    EveryRunIsRight(program, workers, acts);
    EveryRunConserves(program, workers, acts);
    IdleHoldNothing(s.workers);
    assert program[..s.pos] == program;
    forall i | 0 <= i < |program| && program[i].Send?
      ensures ProcessedOnce(s, program[i].job)
    {
      SentJobIsFinished(program, s, i);
    }
    forall row ensures row in s.results <==> exists i :: 0 <= i < |program| && On(program[i], row) {
      RowHasResultIff(program, s, row);
    }
  }

  lemma SentJobIsFinished<P>(program: Program<P>, s: State<P>, i: nat)
    requires Unmixed(program) && ResultsRight(program, s) && Sent(program) == FinishedJobs(s.finished)
    requires i < |program| && program[i].Send?
    ensures ProcessedOnce(s, program[i].job)
  {
    var job := program[i].job;
    SentFacts(program, job);
    SentRowsDiffer(program, job, job);
    FinishedFacts(s.finished, job);
    var k :| 0 <= k < |s.finished| && s.finished[k].0 == job;
    assert FinishedRight(s, k);
    assert FinishedOnce(s, job, k);
  }

  lemma RowHasResultIff<P>(program: Program<P>, s: State<P>, row: int)
    requires Unmixed(program) && ResultsRight(program, s) && Sent(program) == FinishedJobs(s.finished)
    requires s.pos == |program|
    ensures row in s.results <==> exists i :: 0 <= i < |program| && On(program[i], row)
  {
    hide Recorded, Sent, FinishedJobs, Unmixed;
    assert program[..s.pos] == program;
    RecordedFacts(program, row);
    if row in s.results {
      assert Explained(program, s, row);
      if Recorded(program, row).None? {
        var k :| 0 <= k < |s.finished| && s.finished[k].0.row == row;
        FinishedFacts(s.finished, s.finished[k].0);
        SentFacts(program, s.finished[k].0);
      }
    }
    forall i | 0 <= i < |program| && On(program[i], row) ensures row in s.results {
      if program[i].Send? {
        SentJobIsFinished(program, s, i);
      } else {
        assert RecordedRight(program, s, row);
      }
    }
  }

  // Each result stands under its own row number.
  lemma ResultsKnowTheirRows<P>(program: Program<P>, workers: nat, acts: seq<Action>, row: int)
    requires Unmixed(program) && row in Run(program, workers, acts).results
    ensures Run(program, workers, acts).results[row].row == row
  {
    var s := Run(program, workers, acts);
    EveryRunIsRight(program, workers, acts);
    assert Explained(program[..s.pos], s, row) && RecordedRight(program[..s.pos], s, row);
    RecordedFacts(program[..s.pos], row);
    if Recorded(program[..s.pos], row).None? {
      var k :| 0 <= k < |s.finished| && s.finished[k].0.row == row;
      assert FinishedRight(s, k);
    }
  }

  // ---- Every schedule ends -----------------------------------------------------------------

  // Unless all is done or the producer has panicked, somebody can move.
  lemma SomebodyCanMove<P>(program: Program<P>, s: State<P>)
    requires s.workers != [] && s.pos <= |program| && !s.crashed && !Done(program, s)
    ensures exists a :: Enabled(program, s, a)
  {
    if w :| 0 <= w < |s.workers| && s.workers[w].Some? {
      assert Enabled(program, s, Finish(w, Stored));
    } else if s.queue != [] {
      assert Enabled(program, s, Take(0));
    } else {
      assert Enabled(program, s, Produce);
    }
  }

  lemma {:induction false} CrashesOnlyAtPanic<P>(program: Program<P>, workers: nat, acts: seq<Action>)
    requires forall k :: 0 <= k < |program| ==> !program[k].Panic?
    ensures var s := Run(program, workers, acts); !s.crashed && s.pos <= |program| && |s.workers| == workers
  {
    if acts != [] {
      CrashesOnlyAtPanic(program, workers, acts[..|acts| - 1]);
    }
  }

  // With at least one worker and no panic, a run that cannot go on is done.
  lemma StuckIsDone<P>(program: Program<P>, workers: nat, acts: seq<Action>)
    requires workers > 0 && forall k :: 0 <= k < |program| ==> !program[k].Panic?
    requires forall a :: !Enabled(program, Run(program, workers, acts), a)
    ensures Done(program, Run(program, workers, acts))
  {
    CrashesOnlyAtPanic(program, workers, acts);
    if !Done(program, Run(program, workers, acts)) {
      SomebodyCanMove(program, Run(program, workers, acts));
    }
  }

  // The queue never holds more than 500 rows, and the producer waits only when it is full.
  lemma {:induction false} QueueIsBounded<P>(program: Program<P>, workers: nat, acts: seq<Action>)
    ensures var s := Run(program, workers, acts);
            && |s.queue| <= 500
            && (!s.crashed && s.pos < |program| && !Enabled(program, s, Produce) ==> |s.queue| == 500)
  {
    if acts != [] {
      QueueIsBounded(program, workers, acts[..|acts| - 1]);
    }
  }

  function Busy<P>(workers: seq<Option<BulkJob<P>>>): nat {
    if workers == [] then 0 else (if workers[0].Some? then 1 else 0) + Busy(workers[1..])
  }

  lemma {:induction false} BusyAfter<P>(workers: seq<Option<BulkJob<P>>>, w: nat, v: Option<BulkJob<P>>)
    requires w < |workers|
    ensures Busy(workers[w := v]) + (if workers[w].Some? then 1 else 0) == Busy(workers) + (if v.Some? then 1 else 0)
  {
    var changed := workers[w := v];
    if w > 0 {
      BusyAfter(workers[1..], w - 1, v);
      assert changed[1..] == workers[1..][w - 1 := v];
    } else {
      assert changed[1..] == workers[1..];
    }
  }

  // The work left: an emission takes three steps, a queued job two, a job in hand one.
  function Left<P>(program: Program<P>, s: State<P>): int {
    3 * (|program| - s.pos) + 2 * |s.queue| + Busy(s.workers) - (if s.crashed then 1 else 0)
  }

  lemma StepsUseUpWork<P>(program: Program<P>, s: State<P>, a: Action)
    requires Enabled(program, s, a)
    ensures Left(program, Step(program, s, a)) < Left(program, s)
  {
    if a.Take? {
      BusyAfter(s.workers, a.w, Some(s.queue[0]));
    } else if a.Finish? {
      BusyAfter(s.workers, a.w, None);
    }
  }

  // The steps of a run that were possible when they came.
  function Taken<P>(program: Program<P>, workers: nat, acts: seq<Action>): nat {
    if acts == [] then 0
    else
      var init := acts[..|acts| - 1];
      Taken(program, workers, init) + if Enabled(program, Run(program, workers, init), acts[|acts| - 1]) then 1 else 0
  }

  // However the steps are interleaved, no run has more than three for each emission.
  lemma {:induction false} EveryScheduleEnds<P>(program: Program<P>, workers: nat, acts: seq<Action>)
    ensures Taken(program, workers, acts) + Left(program, Run(program, workers, acts)) <= 3 * |program|
    ensures Taken(program, workers, acts) <= 3 * |program|
  {
    if acts == [] {
      AllIdle(Start<P>(workers).workers);
    } else {
      var init := acts[..|acts| - 1];
      EveryScheduleEnds(program, workers, init);
      if Enabled(program, Run(program, workers, init), acts[|acts| - 1]) {
        StepsUseUpWork(program, Run(program, workers, init), acts[|acts| - 1]);
      }
    }
    LeftIsNat(program, workers, acts);
  }

  lemma {:induction false} AllIdle<P>(workers: seq<Option<BulkJob<P>>>)
    requires forall w :: 0 <= w < |workers| ==> workers[w].None?
    ensures Busy(workers) == 0
  {
    if workers != [] {
      AllIdle(workers[1..]);
    }
  }

  lemma {:induction false} LeftIsNat<P>(program: Program<P>, workers: nat, acts: seq<Action>)
    ensures var s := Run(program, workers, acts);
            s.pos <= |program| && (s.crashed ==> s.pos < |program|) && Left(program, s) >= 0
  {
    if acts != [] {
      LeftIsNat(program, workers, acts[..|acts| - 1]);
    }
  }
}
