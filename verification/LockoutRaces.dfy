/** Logins that overlap. A login reads the count of recent failures, then looks the account up and compares the
    password, then hands its record to a goroutine that inserts it; other logins run between these. */
module LockoutRaces {
  import opened Lockout

  /** A login past the check and not yet answered. */
  datatype Flight = Flight(email: string, checkedAt: int)

  /** The table, the logins past the check, the records still in their goroutines, and the clock. */
  datatype State = State(log: seq<Attempt>, flights: seq<Flight>, unrecorded: seq<Attempt>, now: int)

  datatype Step =
    | Check(email: string)
    | Answer(i: nat, account: Account)
    | Insert(i: nat)
    | Tick(at: int)

  const QUIET := State([], [], [], 0)

  predicate Enabled(s: State, step: Step) {
    match step
    case Check(_) => true
    case Answer(i, _) => i < |s.flights|
    case Insert(i) => i < |s.unrecorded|
    case Tick(at) => s.now <= at
  }

  function Without<T>(xs: seq<T>, i: nat): seq<T>
    requires i < |xs|
  {
    xs[..i] + xs[i + 1..]
  }

  function Apply(c: Config, s: State, step: Step): State
    requires Enabled(s, step)
  {
    match step
    case Check(email) =>
      if Locks(c, s.log, email, s.now) then s.(unrecorded := s.unrecorded + [Attempt(email, s.now, Locked)])
      else s.(flights := s.flights + [Flight(email, s.now)])
    case Answer(i, account) =>
      s.(flights := Without(s.flights, i),
         unrecorded := s.unrecorded + [Attempt(s.flights[i].email, s.now, Verdict(account))])
    case Insert(i) => s.(unrecorded := Without(s.unrecorded, i), log := s.log + [s.unrecorded[i]])
    case Tick(at) => s.(now := at)
  }

  predicate Runs(c: Config, s: State, steps: seq<Step>)
    decreases |steps|
  {
    steps == [] || (Enabled(s, steps[0]) && Runs(c, Apply(c, s, steps[0]), steps[1..]))
  }

  function After(c: Config, s: State, steps: seq<Step>): State
    requires Runs(c, s, steps)
    decreases |steps|
  {
    if steps == [] then s else After(c, Apply(c, s, steps[0]), steps[1..])
  }

  predicate Ahead(f: Flight, email: string, until: int) {
    SameEmail(f.email, email) && f.checkedAt < until
  }

  /** The logins for the email that are past the check, those of them checked before an instant. */
  function InFlight(flights: seq<Flight>, email: string, until: int): nat {
    if flights == [] then 0
    else InFlight(flights[..|flights| - 1], email, until) + if Ahead(flights[|flights| - 1], email, until) then 1 else 0
  }

  /** Wrong passwords compared in the half-open window, recorded or not. */
  function Guesses(s: State, email: string, from: int, until: int): nat {
    WrongPasswords(s.log, email, from, until) + WrongPasswords(s.unrecorded, email, from, until)
  }

  /** What a check for the email at this moment cannot count: logins not answered, wrong passwords not recorded. */
  function Uncounted(s: State, email: string, from: int, until: int): nat {
    InFlight(s.flights, email, until) + WrongPasswords(s.unrecorded, email, from, until)
  }

  // ---- counting ---------------------------------------------------------------------------

  lemma InFlightSnoc(flights: seq<Flight>, f: Flight, email: string, until: int)
    ensures InFlight(flights + [f], email, until) ==
      InFlight(flights, email, until) + if Ahead(f, email, until) then 1 else 0
  {
    var all := flights + [f];
    assert all[..|all| - 1] == flights && all[|all| - 1] == f;
  }

  lemma {:induction false} InFlightWithout(flights: seq<Flight>, i: nat, email: string, until: int)
    requires i < |flights|
    ensures InFlight(flights, email, until) == InFlight(Without(flights, i), email, until) +
      if Ahead(flights[i], email, until) then 1 else 0
  {
    var n := |flights| - 1;
    if i == n {
      assert Without(flights, i) == flights[..n];
    } else {
      InFlightWithout(flights[..n], i, email, until);
      InFlightSnoc(Without(flights[..n], i), flights[n], email, until);
      assert Without(flights, i) == Without(flights[..n], i) + [flights[n]];
    }
  }

  lemma WrongSnoc(log: seq<Attempt>, a: Attempt, email: string, from: int, until: int)
    ensures WrongPasswords(log + [a], email, from, until) ==
      WrongPasswords(log, email, from, until) + if WrongPassword(a, email, from, until) then 1 else 0
  {
    var all := log + [a];
    assert all[..|all| - 1] == log && all[|all| - 1] == a;
  }

  lemma {:induction false} WrongWithout(log: seq<Attempt>, i: nat, email: string, from: int, until: int)
    requires i < |log|
    ensures WrongPasswords(log, email, from, until) ==
      WrongPasswords(Without(log, i), email, from, until) + if WrongPassword(log[i], email, from, until) then 1 else 0
  {
    var n := |log| - 1;
    if i == n {
      assert Without(log, i) == log[..n];
    } else {
      WrongWithout(log[..n], i, email, from, until);
      WrongSnoc(Without(log[..n], i), log[n], email, from, until);
      assert Without(log, i) == Without(log[..n], i) + [log[n]];
    }
  }

  // ---- the bound --------------------------------------------------------------------------

  /** At every check for the email in the run, at most p of its earlier logins are uncounted. */
  predicate CrowdedAtMost(c: Config, s: State, steps: seq<Step>, email: string, from: int, p: nat)
    requires Runs(c, s, steps)
    decreases |steps|
  {
    steps == [] ||
    ((steps[0].Check? && SameEmail(steps[0].email, email) ==> Uncounted(s, email, from, from + c.lockout) <= p)
     && CrowdedAtMost(c, Apply(c, s, steps[0]), steps[1..], email, from, p))
  }

  predicate ChecksPast(s: State) {
    forall i :: 0 <= i < |s.flights| ==> s.flights[i].checkedAt <= s.now
  }

  function Limit(c: Config, p: nat): nat {
    if c.maxAttempts > 0 then c.maxAttempts + p else 0
  }

  /** The guesses made in the window and those that may still be made in it. */
  function Potential(c: Config, s: State, email: string, from: int): nat {
    Guesses(s, email, from, from + c.lockout) + InFlight(s.flights, email, from + c.lockout)
  }

  /** A check lets a login through only while the counted failures leave room for it. */
  lemma PassedCheckHasRoom(c: Config, s: State, e: string, email: string, from: int, p: nat)
    requires SameEmail(e, email) && s.now < from + c.lockout && !Locks(c, s.log, e, s.now)
    requires Uncounted(s, email, from, from + c.lockout) <= p
    ensures Potential(c, s, email, from) < Limit(c, p)
  {
    WindowCounted(s.log, email, from, from + c.lockout, e, s.now - c.lockout);
  }

  lemma CheckKeepsBound(c: Config, s: State, e: string, email: string, from: int, p: nat)
    requires Potential(c, s, email, from) <= Limit(c, p)
    requires SameEmail(e, email) ==> Uncounted(s, email, from, from + c.lockout) <= p
    ensures Potential(c, Apply(c, s, Check(e)), email, from) <= Limit(c, p)
  {
    if Locks(c, s.log, e, s.now) {
      WrongSnoc(s.unrecorded, Attempt(e, s.now, Locked), email, from, from + c.lockout);
    } else {
      InFlightSnoc(s.flights, Flight(e, s.now), email, from + c.lockout);
      if Ahead(Flight(e, s.now), email, from + c.lockout) {
        PassedCheckHasRoom(c, s, e, email, from, p);
      }
    }
  }

  lemma AnswerKeepsBound(c: Config, s: State, i: nat, account: Account, email: string, from: int)
    requires ChecksPast(s) && i < |s.flights|
    ensures Potential(c, Apply(c, s, Answer(i, account)), email, from) <= Potential(c, s, email, from)
  {
    var until := from + c.lockout;
    var f, a := s.flights[i], Attempt(s.flights[i].email, s.now, Verdict(account));
    assert WrongPassword(a, email, from, until) ==> Ahead(f, email, until);
    InFlightWithout(s.flights, i, email, until);
    WrongSnoc(s.unrecorded, a, email, from, until);
  }

  lemma InsertKeepsBound(c: Config, s: State, i: nat, email: string, from: int)
    requires i < |s.unrecorded|
    ensures Potential(c, Apply(c, s, Insert(i)), email, from) == Potential(c, s, email, from)
  {
    var until, a := from + c.lockout, s.unrecorded[i];
    var t := Apply(c, s, Insert(i));
    WrongWithout(s.unrecorded, i, email, from, until);
    WrongSnoc(s.log, a, email, from, until);
    assert t.flights == s.flights && t.unrecorded == Without(s.unrecorded, i) && t.log == s.log + [a];
  }

  lemma StepKeepsChecksPast(c: Config, s: State, step: Step)
    requires Enabled(s, step) && ChecksPast(s)
    ensures ChecksPast(Apply(c, s, step))
  {
  }

  lemma {:induction false} RunKeepsBound(c: Config, s: State, steps: seq<Step>, email: string, from: int, p: nat)
    requires Runs(c, s, steps) && CrowdedAtMost(c, s, steps, email, from, p)
    requires ChecksPast(s) && Potential(c, s, email, from) <= Limit(c, p)
    ensures Potential(c, After(c, s, steps), email, from) <= Limit(c, p)
    decreases |steps|
  {
    if steps != [] {
      StepKeepsChecksPast(c, s, steps[0]);
      match steps[0] {
        case Check(e) => CheckKeepsBound(c, s, e, email, from, p);
        case Answer(i, account) => AnswerKeepsBound(c, s, i, account, email, from);
        case Insert(i) => InsertKeepsBound(c, s, i, email, from);
        case Tick(_) =>
      }
      RunKeepsBound(c, Apply(c, s, steps[0]), steps[1..], email, from, p);
    }
  }

  /** However logins overlap, a half-open window of the lockout's length holds at most MaxLoginAttempts wrong
      passwords for one email and as many more as logins for it are ever uncounted at a check. */
  lemma OverlappingGuessesBound(c: Config, steps: seq<Step>, email: string, from: int, p: nat)
    requires Runs(c, QUIET, steps) && CrowdedAtMost(c, QUIET, steps, email, from, p)
    ensures Guesses(After(c, QUIET, steps), email, from, from + c.lockout) <= Limit(c, p)
  {
    RunKeepsBound(c, QUIET, steps, email, from, p);
  }

  // ---- the bound is reached ---------------------------------------------------------------

  function Repeat<T>(x: T, n: nat): seq<T> {
    seq(n, _ => x)
  }

  lemma RepeatSnoc<T>(x: T, n: nat)
    ensures Repeat(x, n + 1) == Repeat(x, n) + [x] && Without(Repeat(x, n + 1), 0) == Repeat(x, n)
  {
  }

  function Wrong(e: string): Attempt {
    Attempt(e, 0, InvalidPassword)
  }

  /** At instant zero: k wrong passwords recorded, m logins in flight, u wrong passwords unrecorded. */
  function Crowd(e: string, k: nat, m: nat, u: nat): State {
    State(Repeat(Wrong(e), k), Repeat(Flight(e, 0), m), Repeat(Wrong(e), u), 0)
  }

  lemma {:induction false} WrongsCount(e: string, k: nat, lockout: int)
    requires lockout >= 1
    ensures RecentFailures(Repeat(Wrong(e), k), e, 0 - lockout) == k
    ensures WrongPasswords(Repeat(Wrong(e), k), e, 0, lockout) == k
  {
    if k > 0 {
      WrongsCount(e, k - 1, lockout);
      RepeatSnoc(Wrong(e), k - 1);
      FailureSnoc(Repeat(Wrong(e), k - 1), e, 0, 0 - lockout, 0, lockout);
    }
  }

  lemma {:induction false} FlightsCount(e: string, m: nat, until: int)
    requires until >= 1
    ensures InFlight(Repeat(Flight(e, 0), m), e, until) == m
  {
    if m > 0 {
      FlightsCount(e, m - 1, until);
      RepeatSnoc(Flight(e, 0), m - 1);
      InFlightSnoc(Repeat(Flight(e, 0), m - 1), Flight(e, 0), e, until);
    }
  }

  lemma CrowdCounts(c: Config, e: string, k: nat, m: nat, u: nat)
    requires c.lockout >= 1
    ensures Locks(c, Crowd(e, k, m, u).log, e, 0) <==> k >= c.maxAttempts
    ensures Uncounted(Crowd(e, k, m, u), e, 0, c.lockout) == m + u
    ensures Guesses(Crowd(e, k, m, u), e, 0, c.lockout) == k + u
  {
    WrongsCount(e, k, c.lockout);
    WrongsCount(e, u, c.lockout);
    FlightsCount(e, m, c.lockout);
  }

  lemma CrowdSteps(c: Config, e: string, k: nat, m: nat, u: nat)
    requires c.lockout >= 1
    ensures k < c.maxAttempts ==> Apply(c, Crowd(e, k, m, u), Check(e)) == Crowd(e, k, m + 1, u)
    ensures Apply(c, Crowd(e, k, m + 1, u), Answer(0, Active(false))) == Crowd(e, k, m, u + 1)
    ensures Apply(c, Crowd(e, k, m, u + 1), Insert(0)) == Crowd(e, k + 1, m, u)
  {
    CrowdCounts(c, e, k, m, u);
    RepeatSnoc(Flight(e, 0), m);
    RepeatSnoc(Wrong(e), u);
    RepeatSnoc(Wrong(e), k);
  }

  /** A run of logins for the email that are never more than p uncounted at a check, and overshoot by p. */
  predicate Overshoots(c: Config, s: State, steps: seq<Step>, e: string, p: nat) {
    && Runs(c, s, steps) && CrowdedAtMost(c, s, steps, e, 0, p)
    && Guesses(After(c, s, steps), e, 0, c.lockout) == c.maxAttempts + p
  }

  lemma OvershootsCons(c: Config, s: State, step: Step, rest: seq<Step>, e: string, p: nat)
    requires Enabled(s, step) && Overshoots(c, Apply(c, s, step), rest, e, p)
    requires step.Check? ==> Uncounted(s, e, 0, c.lockout) <= p
    ensures Overshoots(c, s, [step] + rest, e, p)
  {
    assert ([step] + rest)[1..] == rest && ([step] + rest)[0] == step;
  }

  /** All in flight are answered with a wrong password. */
  lemma {:induction false} AnswerAll(c: Config, e: string, m: nat, u: nat, p: nat) returns (steps: seq<Step>)
    requires c.lockout >= 1 && c.maxAttempts >= 1 && m + u == p + 1
    ensures Overshoots(c, Crowd(e, c.maxAttempts - 1, m, u), steps, e, p)
    decreases m
  {
    if m == 0 {
      CrowdCounts(c, e, c.maxAttempts - 1, m, u);
      steps := [];
    } else {
      CrowdSteps(c, e, c.maxAttempts - 1, m - 1, u);
      var rest := AnswerAll(c, e, m - 1, u + 1, p);
      OvershootsCons(c, Crowd(e, c.maxAttempts - 1, m, u), Answer(0, Active(false)), rest, e, p);
      steps := [Answer(0, Active(false))] + rest;
    }
  }

  /** One short of the limit, p + 1 logins are let through together. */
  lemma {:induction false} CheckAll(c: Config, e: string, m: nat, p: nat) returns (steps: seq<Step>)
    requires c.lockout >= 1 && c.maxAttempts >= 1 && m <= p + 1
    ensures Overshoots(c, Crowd(e, c.maxAttempts - 1, m, 0), steps, e, p)
    decreases p + 1 - m
  {
    if m == p + 1 {
      steps := AnswerAll(c, e, m, 0, p);
    } else {
      CrowdSteps(c, e, c.maxAttempts - 1, m, 0);
      CrowdCounts(c, e, c.maxAttempts - 1, m, 0);
      var rest := CheckAll(c, e, m + 1, p);
      OvershootsCons(c, Crowd(e, c.maxAttempts - 1, m, 0), Check(e), rest, e, p);
      steps := [Check(e)] + rest;
    }
  }

  /** Up to there, one login after another. */
  lemma {:induction false} OneByOne(c: Config, e: string, k: nat, p: nat) returns (steps: seq<Step>)
    requires c.lockout >= 1 && k < c.maxAttempts
    ensures Overshoots(c, Crowd(e, k, 0, 0), steps, e, p)
    decreases c.maxAttempts - k
  {
    if k == c.maxAttempts - 1 {
      steps := CheckAll(c, e, 0, p);
    } else {
      CrowdSteps(c, e, k, 0, 0);
      CrowdCounts(c, e, k, 0, 0);
      var rest := OneByOne(c, e, k + 1, p);
      OvershootsCons(c, Crowd(e, k, 0, 1), Insert(0), rest, e, p);
      OvershootsCons(c, Crowd(e, k, 1, 0), Answer(0, Active(false)), [Insert(0)] + rest, e, p);
      OvershootsCons(c, Crowd(e, k, 0, 0), Check(e), [Answer(0, Active(false))] + ([Insert(0)] + rest), e, p);
      steps := [Check(e)] + ([Answer(0, Active(false))] + ([Insert(0)] + rest));
    }
  }

  /** That many guesses do fit, for every configuration, email and degree of overlap. */
  lemma OverlappingBoundIsReached(c: Config, e: string, p: nat)
    requires c.lockout >= 1 && c.maxAttempts >= 1
    ensures exists steps :: Overshoots(c, QUIET, steps, e, p)
  {
    var steps := OneByOne(c, e, 0, p);
    assert QUIET == Crowd(e, 0, 0, 0);
  }

  // ---- one login at a time ----------------------------------------------------------------

  lemma RunCons(c: Config, s: State, step: Step, rest: seq<Step>)
    requires Enabled(s, step) && Runs(c, Apply(c, s, step), rest)
    ensures Runs(c, s, [step] + rest) && After(c, s, [step] + rest) == After(c, Apply(c, s, step), rest)
  {
    assert ([step] + rest)[1..] == rest && ([step] + rest)[0] == step;
  }

  /** A login nobody overlaps is a check, its answer unless it is locked, and its record. */
  lemma UndisturbedLogin(c: Config, s: State, l: Login) returns (steps: seq<Step>)
    requires s.flights == [] && s.unrecorded == [] && s.now == l.at
    ensures Runs(c, s, steps) && After(c, s, steps) == s.(log := Record(c, s.log, l))
  {
    var t := Apply(c, s, Check(l.email));
    if Locks(c, s.log, l.email, l.at) {
      RunCons(c, t, Insert(0), []);
      steps := [Insert(0)] + [];
    } else {
      var u := Apply(c, t, Answer(0, l.account));
      RunCons(c, u, Insert(0), []);
      RunCons(c, t, Answer(0, l.account), [Insert(0)] + []);
      steps := [Answer(0, l.account)] + ([Insert(0)] + []);
    }
    RunCons(c, s, Check(l.email), steps);
    steps := [Check(l.email)] + steps;
  }
}
