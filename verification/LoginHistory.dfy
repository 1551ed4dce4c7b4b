/**
  An account told from its history of sign-ins: the failures counted since somebody last
  got in decide the lock, and with it every answer.
 */
module LoginHistory {
  import opened Wrappers
  import opened LoginLockout

  // When the counted failures since the last stored sign-in happened, oldest first.
  type Failures = seq<nat>

  const QUARTER_HOUR: nat := 900_000_000_000

  // Five failures or more lock the account for a quarter of an hour after the last one.
  predicate LockedAt(fails: Failures, now: nat) {
    |fails| >= 5 && now < fails[|fails| - 1] + QUARTER_HOUR
  }

  // What a sign-in adds to the history: a stored one clears it, a counted failure
  // lengthens it, and one that is turned away at the door leaves no trace.
  function Noted(active: bool, fails: Failures, a: Attempt, now: nat): Failures {
    if !active || LockedAt(fails, now) || !a.written then fails
    else if a.correct then []
    else fails + [now + a.comparing]
  }

  // The history and the clock after these sign-ins.
  function Replay(active: bool, fails: Failures, clock: nat, events: seq<Event>): (Failures, nat)
    decreases |events|
  {
    if events == [] then (fails, clock)
    else
      var e := events[0];
      var now := clock + e.waited;
      var later := if !active || LockedAt(fails, now) then now else now + e.attempt.comparing;
      Replay(active, Noted(active, fails, e.attempt, now), later, events[1..])
  }

  // The columns that go with a history.
  function Columns(active: bool, fails: Failures): Account {
    LoginLockout.Account(active, |fails|, if |fails| >= 5 then Some(fails[|fails| - 1] + QUARTER_HOUR) else None)
  }

  lemma StepTells(active: bool, fails: Failures, clock: nat, e: Event)
    ensures var now := clock + e.waited;
            var later := if !active || LockedAt(fails, now) then now else now + e.attempt.comparing;
            Step(State(Columns(active, fails), clock), e) == State(Columns(active, Noted(active, fails, e.attempt, now)), later)
  {
  }

  // After any history of sign-ins the account's columns are those of its failures since
  // somebody last got in.
  lemma {:induction false} HistoryTellsColumns(active: bool, fails: Failures, clock: nat, events: seq<Event>)
    ensures var (fails', clock') := Replay(active, fails, clock, events);
            Run(State(Columns(active, fails), clock), events) == State(Columns(active, fails'), clock')
    decreases |events|
  {
    hide Step, Noted, LockedAt, Columns;
    if events != [] {
      var e := events[0];
      StepTells(active, fails, clock, e);
      var now := clock + e.waited;
      var later := if !active || LockedAt(fails, now) then now else now + e.attempt.comparing;
      HistoryTellsColumns(active, Noted(active, fails, e.attempt, now), later, events[1..]);
    }
  }

  // From a new account on, the answer to a sign-in follows from the history: a disabled
  // account is answered as such; one with five failures, the last of them less than a
  // quarter of an hour ago, as locked, whatever the password; a wrong password as wrong;
  // and a right one gets in, if that can be stored.
  lemma AnswerFollowsHistory(active: bool, events: seq<Event>, a: Attempt, waited: nat)
    ensures var s := Run(State(LoginLockout.Account(active, 0, None), 0), events);
            var (fails, clock) := Replay(active, [], 0, events);
            var (now, r) := (s.clock + waited, Attempted(s.user, a, s.clock + waited).1);
            && s.clock == clock
            && (r == AccountDisabled <==> !active)
            && (r == AccountLocked <==> active && LockedAt(fails, now))
            && (r == InvalidCredentials <==> active && !LockedAt(fails, now) && !a.correct)
            && (r == SignedIn <==> active && !LockedAt(fails, now) && a.correct && a.written)
            && (r == StoreFailed <==> active && !LockedAt(fails, now) && a.correct && !a.written)
  {
    hide Step;
    assert Columns(active, []) == LoginLockout.Account(active, 0, None);
    HistoryTellsColumns(active, [], 0, events);
  }

  lemma {:induction false} FewFailures(fails: Failures, clock: nat, events: seq<Event>)
    requires |fails| + |events| <= 5
    ensures |Guesses(State(Columns(true, fails), clock), events)| == |events| - |RightOnes(events)|
    decreases |events|
  {
    hide Step;
    if events != [] {
      var e := events[0];
      var now := clock + e.waited;
      StepTells(true, fails, clock, e);
      FewFailures(Noted(true, fails, e.attempt, now), now + e.attempt.comparing, events[1..]);
    }
  }

  // The sign-ins with the right password among these.
  function RightOnes(events: seq<Event>): seq<Event> {
    if events == [] then [] else (if events[0].attempt.correct then [events[0]] else []) + RightOnes(events[1..])
  }

  // Whenever somebody has got in, after whatever history, the next five sign-ins are all
  // compared: every wrong password among them is a guess that counts as free.
  lemma FiveGuessesAfterSignIn(events: seq<Event>, e: Event, more: seq<Event>)
    requires var s := Run(State(FRESH, 0), events); Attempted(s.user, e.attempt, s.clock + e.waited).1 == SignedIn
    requires |more| <= 5
    ensures var s := Step(Run(State(FRESH, 0), events), e);
            && s.user == FRESH
            && |Guesses(s, more)| == |more| - |RightOnes(more)|
  {
    hide Replay, Guesses;
    assert Columns(true, []) == FRESH;
    HistoryTellsColumns(true, [], 0, events);
    var (fails, clock) := Replay(true, [], 0, events);
    StepTells(true, fails, clock, e);
    assert Noted(true, fails, e.attempt, clock + e.waited) == [];
    FewFailures([], Step(Run(State(FRESH, 0), events), e).clock, more);
  }
}
