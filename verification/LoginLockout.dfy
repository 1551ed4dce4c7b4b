/**
  Failed sign-ins and the lock they put on an account, and how fast passwords can
  be tried. Clock readings are nanoseconds.
 */
module LoginLockout {
  import opened Wrappers

  const THRESHOLD: nat := 5
  const LOCK: nat := 15 * 60 * 1_000_000_000

  // The lockout columns of a user.
  datatype Account = Account(active: bool, failedAttempts: nat, lockedUntil: Option<nat>)

  datatype Outcome = AccountDisabled | AccountLocked | InvalidCredentials | StoreFailed | SignedIn

  // One sign-in: whether the password is right, how long the comparison takes
  // and whether the database takes the write that follows it.
  datatype Attempt = Attempt(correct: bool, comparing: nat, written: bool)

  predicate Locked(u: Account, now: nat) {
    u.lockedUntil.Some? && now < u.lockedUntil.value
  }

  // The password is compared only on an active account that is not locked.
  predicate Compares(u: Account, now: nat) {
    u.active && !Locked(u, now)
  }

  function AfterFailure(u: Account, now: nat): Account {
    u.(failedAttempts := u.failedAttempts + 1,
       lockedUntil := if u.failedAttempts + 1 >= THRESHOLD then Some(now + LOCK) else None)
  }

  function Attempted(u: Account, a: Attempt, now: nat): (Account, Outcome) {
    if !u.active then (u, AccountDisabled)
    else if Locked(u, now) then (u, AccountLocked)
    else if !a.correct then (if a.written then AfterFailure(u, now + a.comparing) else u, InvalidCredentials)
    else if !a.written then (u, StoreFailed)
    else (u.(failedAttempts := 0, lockedUntil := None), SignedIn)
  }

  class UserRow {
    var status: bool
    var failedAttempts: nat
    var lockedUntil: Option<nat>

    ghost function Value(): Account
      reads this
    {
      Account(status, failedAttempts, lockedUntil)
    }

    constructor (active: bool)
      ensures Value() == Account(active, 0, None)
    {
      status, failedAttempts, lockedUntil := active, 0, None;
    }

    method LoginUser(a: Attempt, now: nat) returns (r: Outcome)
      modifies this
      ensures (Value(), r) == Attempted(old(Value()), a, now)
    {
      if !status {
        return AccountDisabled;
      }
      if lockedUntil.Some? && lockedUntil.value > now {
        return AccountLocked;
      }
      if !a.correct {
        var newAttempts := failedAttempts + 1;
        var lockUntil: Option<nat> := None;
        if newAttempts >= THRESHOLD {
          lockUntil := Some(now + a.comparing + LOCK);
        }
        if a.written {
          failedAttempts, lockedUntil := newAttempts, lockUntil;
        }
        return InvalidCredentials;
      }
      if !a.written {
        return StoreFailed;
      }
      failedAttempts, lockedUntil := 0, None;
      return SignedIn;
    }
  }

  // ---- Histories ---------------------------------------------------------------------

  // Sign-ins one after another, each `waited` after the one before has finished.
  datatype Event = Event(waited: nat, attempt: Attempt)

  datatype State = State(user: Account, clock: nat)

  function Step(s: State, e: Event): State {
    var now := s.clock + e.waited;
    var taken := if Compares(s.user, now) then e.attempt.comparing else 0;
    State(Attempted(s.user, e.attempt, now).0, now + taken)
  }

  function Run(s: State, events: seq<Event>): State
    decreases |events|
  {
    if events == [] then s else Run(Step(s, events[0]), events[1..])
  }

  // A password compared and found wrong: when, and whether the failure was counted.
  datatype Guess = Guess(at: nat, written: bool)

  // The wrong guesses of this history.
  function Guesses(s: State, events: seq<Event>): seq<Guess>
    decreases |events|
  {
    if events == [] then []
    else GuessOf(s, events[0]) + Guesses(Step(s, events[0]), events[1..])
  }

  function GuessOf(s: State, e: Event): seq<Guess> {
    var now := s.clock + e.waited;
    if Compares(s.user, now) && !e.attempt.correct then [Guess(now, e.attempt.written)] else []
  }

  // Nobody gets in: no sign-in with the right password is also stored.
  ghost predicate NobodyGetsIn(events: seq<Event>) {
    forall e <- events :: !(e.attempt.correct && e.attempt.written)
  }

  // What every history keeps: the account carries a lock from the fifth failure on.
  ghost predicate Sane(u: Account) {
    u.lockedUntil.Some? <==> u.failedAttempts >= THRESHOLD
  }

  lemma {:induction false} HistoriesAreSane(s: State, events: seq<Event>)
    requires Sane(s.user)
    ensures Sane(Run(s, events).user)
    decreases |events|
  {
    if events != [] {
      HistoriesAreSane(Step(s, events[0]), events[1..]);
    }
  }

  // How many more counted guesses the account takes before it locks.
  function FreeGuesses(u: Account): nat {
    if u.failedAttempts < THRESHOLD then THRESHOLD - u.failedAttempts else 0
  }

  // The earliest time of the next guess.
  function NextGuess(s: State): nat {
    if s.user.lockedUntil.Some? && s.clock < s.user.lockedUntil.value then s.user.lockedUntil.value else s.clock
  }

  function FreeAfter(free: nat, g: Guess): nat {
    if g.written && free > 0 then free - 1 else free
  }

  // A counted guess locks the account unless it was a free one.
  function EarliestAfter(free: nat, g: Guess): nat {
    g.at + if g.written && free <= 1 then LOCK else 0
  }

  // Guesses in order, the first at `earliest` at the earliest: those that are
  // counted use up the free ones and then lock the account each time.
  predicate Spaced(free: nat, earliest: nat, guesses: seq<Guess>)
    decreases |guesses|
  {
    guesses == []
    || (earliest <= guesses[0].at && Spaced(FreeAfter(free, guesses[0]), EarliestAfter(free, guesses[0]), guesses[1..]))
  }

  lemma SpacedFromEarlier(free: nat, earliest: nat, later: nat, guesses: seq<Guess>)
    requires Spaced(free, later, guesses) && earliest <= later
    ensures Spaced(free, earliest, guesses)
  {
  }

  // One sign-in that lets nobody in: what it does to the free guesses and to the
  // time of the next guess.
  lemma FailureFacts(s: State, e: Event)
    requires Sane(s.user) && !(e.attempt.correct && e.attempt.written)
    ensures var s' := Step(s, e);
            && Sane(s'.user)
            && (if GuessOf(s, e) == [] then NextGuess(s) <= NextGuess(s') && s'.user == s.user
                else
                  var g := GuessOf(s, e)[0];
                  && GuessOf(s, e) == [g] && NextGuess(s) <= g.at
                  && FreeGuesses(s'.user) == FreeAfter(FreeGuesses(s.user), g)
                  && EarliestAfter(FreeGuesses(s.user), g) <= NextGuess(s'))
  {
  }

  lemma {:induction false} GuessesAreSpaced(s: State, events: seq<Event>)
    requires Sane(s.user) && NobodyGetsIn(events)
    ensures Spaced(FreeGuesses(s.user), NextGuess(s), Guesses(s, events))
    decreases |events|
  {
    hide Step, GuessOf, FreeGuesses, NextGuess, FreeAfter, EarliestAfter;
    if events != [] {
      var s', first := Step(s, events[0]), GuessOf(s, events[0]);
      assert events[0] in events && forall f <- events[1..] :: f in events;
      FailureFacts(s, events[0]);
      GuessesAreSpaced(s', events[1..]);
      var rest := Guesses(s', events[1..]);
      if first == [] {
        assert first + rest == rest;
        SpacedFromEarlier(FreeGuesses(s.user), NextGuess(s), NextGuess(s'), rest);
      } else {
        assert ([first[0]] + rest)[0] == first[0] && ([first[0]] + rest)[1..] == rest;
        SpacedFromEarlier(FreeGuesses(s'.user), EarliestAfter(FreeGuesses(s.user), first[0]), NextGuess(s'), rest);
      }
    }
  }

  // ---- How many guesses fit in a span ----------------------------------------------------

  function Counted(guesses: seq<Guess>): nat {
    if guesses == [] then 0 else (if guesses[0].written then 1 else 0) + Counted(guesses[1..])
  }

  // The guesses that went uncounted because their write was lost.
  function Lost(guesses: seq<Guess>): nat {
    if guesses == [] then 0 else (if guesses[0].written then 0 else 1) + Lost(guesses[1..])
  }

  lemma {:induction false} CountedOrLost(guesses: seq<Guess>)
    ensures Counted(guesses) + Lost(guesses) == |guesses|
  {
    if guesses != [] {
      CountedOrLost(guesses[1..]);
    }
  }

  // How often the account has been locked after so many counted guesses.
  function Locks(free: nat, counted: nat): nat {
    if free == 0 then counted else if counted >= free then counted - free + 1 else 0
  }

  // Guess j comes after a lock period for each lock before it.
  lemma {:induction false} Behind(free: nat, earliest: nat, guesses: seq<Guess>, j: nat)
    requires Spaced(free, earliest, guesses) && j < |guesses|
    ensures earliest + Locks(free, Counted(guesses[..j])) * LOCK <= guesses[j].at
    decreases j
  {
    if j > 0 {
      var g, rest := guesses[0], guesses[1..];
      Behind(FreeAfter(free, g), EarliestAfter(free, g), rest, j - 1);
      assert guesses[..j][0] == g && guesses[..j][1..] == rest[..j - 1];
      var counted := Counted(rest[..j - 1]);
      if g.written {
        OneMoreLock(free, counted);
      }
    } else {
      assert guesses[..0] == [];
    }
  }

  lemma OneMoreLock(free: nat, counted: nat)
    ensures Locks(free, counted + 1) == Locks(if free > 0 then free - 1 else 0, counted) + if free <= 1 then 1 else 0
    ensures Locks(free, counted + 1) * LOCK
         == Locks(if free > 0 then free - 1 else 0, counted) * LOCK + if free <= 1 then LOCK else 0
  {
  }

  // From guess i on the guesses are spaced as well, starting at its time.
  lemma {:induction false} SpacedFrom(free: nat, earliest: nat, guesses: seq<Guess>, i: nat) returns (free': nat)
    requires Spaced(free, earliest, guesses) && i < |guesses|
    ensures free' <= free && Spaced(free', guesses[i].at, guesses[i..])
    decreases i
  {
    if i == 0 {
      free' := free;
      assert guesses[0..] == guesses;
    } else {
      free' := SpacedFrom(FreeAfter(free, guesses[0]), EarliestAfter(free, guesses[0]), guesses[1..], i - 1);
      assert guesses[1..][i - 1..] == guesses[i..];
    }
  }

  lemma DivideAtLeast(span: nat, n: nat)
    requires n * LOCK <= span
    ensures n <= span / LOCK
  {
    var q, r := span / LOCK, span % LOCK;
    assert span == q * LOCK + r && r < LOCK;
    if q < n {
      MulAtLeast(q + 1, n);
    }
  }

  lemma MulAtLeast(m: nat, n: nat)
    requires m <= n
    ensures m * LOCK <= n * LOCK
  {
  }

  lemma SpanOfGuesses(free: nat, earliest: nat, guesses: seq<Guess>, i: nat, j: nat)
    requires Spaced(free, earliest, guesses) && free <= THRESHOLD && i <= j < |guesses|
    ensures guesses[i].at <= guesses[j].at
    ensures j - i + 1 <= THRESHOLD + (guesses[j].at - guesses[i].at) / LOCK + Lost(guesses[i..j])
  {
    var free' := SpacedFrom(free, earliest, guesses, i);
    Behind(free', guesses[i].at, guesses[i..], j - i);
    assert guesses[i..][..j - i] == guesses[i..j];
    CountedOrLost(guesses[i..j]);
    var locks := Locks(free', Counted(guesses[i..j]));
    MulAtLeast(0, locks);
    DivideAtLeast(guesses[j].at - guesses[i].at, locks);
  }

  // Over any history in which nobody gets in, any run of consecutive guesses that
  // spans a time T has at most 5 + T / 15 min of them, plus those among them whose
  // failure was not written.
  lemma GuessRateIsBounded(s: State, events: seq<Event>, i: nat, j: nat)
    requires Sane(s.user) && NobodyGetsIn(events) && i <= j < |Guesses(s, events)|
    ensures var guesses := Guesses(s, events);
            && guesses[i].at <= guesses[j].at
            && j - i + 1 <= THRESHOLD + (guesses[j].at - guesses[i].at) / LOCK + Lost(guesses[i..j])
  {
    hide Guesses, Spaced, Lost;
    GuessesAreSpaced(s, events);
    SpanOfGuesses(FreeGuesses(s.user), NextGuess(s), Guesses(s, events), i, j);
  }

  // ---- The bound is reached ------------------------------------------------------------

  const GUESS := Attempt(false, 0, true)
  const LOST_GUESS := Attempt(false, 0, false)
  const FRESH := Account(true, 0, None)

  // Uncounted guesses first, then five at once, then one whenever the lock runs out.
  function Persistent(lost: nat, n: nat): seq<Event> {
    if lost > 0 then [Event(0, LOST_GUESS)] + Persistent(lost - 1, n)
    else seq(n, k => Event(if k < THRESHOLD then 0 else LOCK, GUESS))
  }

  lemma {:induction false} LockedGuesses(s: State, events: seq<Event>)
    requires s.user.active && s.user.failedAttempts >= THRESHOLD && s.user.lockedUntil == Some(s.clock + LOCK)
    requires forall e <- events :: e == Event(LOCK, GUESS)
    ensures |Guesses(s, events)| == |events|
    ensures forall k :: 0 <= k < |events| ==> Guesses(s, events)[k] == Guess(s.clock + (k + 1) * LOCK, true)
    decreases |events|
  {
    if events != [] {
      assert events[0] in events && forall f <- events[1..] :: f in events;
      LockedGuesses(Step(s, events[0]), events[1..]);
    }
  }

  lemma {:induction false} FreeOnes(s: State, events: seq<Event>)
    requires s.clock == 0 && s.user.active && s.user.failedAttempts < THRESHOLD && s.user.lockedUntil == None
    requires |events| >= THRESHOLD - s.user.failedAttempts
    requires forall k :: 0 <= k < |events| ==>
               events[k] == Event(if k < THRESHOLD - s.user.failedAttempts then 0 else LOCK, GUESS)
    ensures var guesses := Guesses(s, events);
            && |guesses| == |events|
            && guesses[0] == Guess(0, true)
            && guesses[|guesses| - 1] == Guess((|events| - (THRESHOLD - s.user.failedAttempts)) * LOCK, true)
            && Lost(guesses) == 0
    decreases |events|
  {
    var s', rest := Step(s, events[0]), events[1..];
    var first := GuessOf(s, events[0]);
    assert first == [Guess(0, true)];
    var guesses := Guesses(s', rest);
    assert Guesses(s, events) == first + guesses;
    assert (first + guesses)[1..] == guesses;
    if s.user.failedAttempts == THRESHOLD - 1 {
      forall e <- rest ensures e == Event(LOCK, GUESS) {
        var k :| 0 <= k < |rest| && rest[k] == e;
        assert rest[k] == events[k + 1];
      }
      LockedGuesses(s', rest);
      NoneLost(guesses);
    } else {
      FreeOnes(s', rest);
    }
  }

  lemma {:induction false} NoneLost(guesses: seq<Guess>)
    requires forall k :: 0 <= k < |guesses| ==> guesses[k].written
    ensures Lost(guesses) == 0
  {
    if guesses != [] {
      NoneLost(guesses[1..]);
    }
  }

  // For every number of lost writes and every span of whole lock periods there is a
  // history with as many guesses as the bound allows.
  lemma {:induction false} BoundIsReached(lost: nat, periods: nat)
    ensures var events := Persistent(lost, THRESHOLD + periods);
            var guesses := Guesses(State(FRESH, 0), events);
            && NobodyGetsIn(events)
            && |guesses| == THRESHOLD + periods + lost && Lost(guesses) == lost
            && guesses[0].at == 0 && guesses[|guesses| - 1] == Guess(periods * LOCK, true)
  {
    hide Guesses, Lost, NobodyGetsIn;
    var s := State(FRESH, 0);
    var events := Persistent(lost, THRESHOLD + periods);
    if lost > 0 {
      BoundIsReached(lost - 1, periods);
      LostFirst(Persistent(lost - 1, THRESHOLD + periods));
    } else {
      FreeOnes(s, events);
      OnlyWrongGuesses(THRESHOLD + periods);
    }
  }

  lemma OnlyWrongGuesses(n: nat)
    ensures NobodyGetsIn(Persistent(0, n))
  {
  }

  // A wrong guess that is not written leaves a fresh account as it was.
  lemma LostFirst(more: seq<Event>)
    ensures var s := State(FRESH, 0);
            Guesses(s, [Event(0, LOST_GUESS)] + more) == [Guess(0, false)] + Guesses(s, more)
    ensures Lost([Guess(0, false)] + Guesses(State(FRESH, 0), more)) == 1 + Lost(Guesses(State(FRESH, 0), more))
    ensures NobodyGetsIn(more) ==> NobodyGetsIn([Event(0, LOST_GUESS)] + more)
  {
    var s, events := State(FRESH, 0), [Event(0, LOST_GUESS)] + more;
    assert events[0] == Event(0, LOST_GUESS) && events[1..] == more;
    assert Step(s, events[0]) == s && GuessOf(s, events[0]) == [Guess(0, false)];
    assert ([Guess(0, false)] + Guesses(s, more))[1..] == Guesses(s, more);
  }
}
