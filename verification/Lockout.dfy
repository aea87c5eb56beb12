/** The login lockout: a sliding window over recorded failed attempts. Emails are compared by
    their case-folded form, as the query does. */
module Lockout {
  import Like

  /** What the account lookup and the password check would answer for one login. */
  datatype Account = Unknown | Inactive | Active(passwordMatches: bool)

  datatype Reason = Locked | UserNotFound | AccountInactive | InvalidPassword | LoggedIn

  datatype Attempt = Attempt(email: string, at: int, reason: Reason)

  datatype Config = Config(maxAttempts: int, lockout: int)

  datatype Login = Login(email: string, at: int, account: Account)

  predicate SameEmail(a: string, b: string) {
    Like.Lower(a) == Like.Lower(b)
  }

  /** `success = false` is recorded for everything but a completed login, lockouts included. */
  predicate FailedAfter(a: Attempt, email: string, since: int) {
    SameEmail(a.email, email) && !a.reason.LoggedIn? && a.at > since
  }

  /** The count the lockout check queries. */
  function RecentFailures(log: seq<Attempt>, email: string, since: int): nat {
    if log == [] then 0
    else RecentFailures(log[..|log| - 1], email, since) + if FailedAfter(log[|log| - 1], email, since) then 1 else 0
  }

  predicate Locks(c: Config, log: seq<Attempt>, email: string, at: int) {
    RecentFailures(log, email, at - c.lockout) >= c.maxAttempts
  }

  /** What a login that is not locked comes to. */
  function Verdict(account: Account): Reason {
    match account
    case Unknown => UserNotFound
    case Inactive => AccountInactive
    case Active(ok) => if ok then LoggedIn else InvalidPassword
  }

  function Outcome(c: Config, log: seq<Attempt>, l: Login): Reason {
    if Locks(c, log, l.email, l.at) then Locked else Verdict(l.account)
  }

  function Record(c: Config, log: seq<Attempt>, l: Login): seq<Attempt> {
    log + [Attempt(l.email, l.at, Outcome(c, log, l))]
  }

  /** The log after a history of logins. */
  function Replay(c: Config, history: seq<Login>): seq<Attempt> {
    if history == [] then []
    else Record(c, Replay(c, history[..|history| - 1]), history[|history| - 1])
  }

  predicate Nondecreasing(history: seq<Login>) {
    forall i, j :: 0 <= i <= j < |history| ==> history[i].at <= history[j].at
  }

  lemma {:induction false} ReplayLength(c: Config, history: seq<Login>)
    ensures |Replay(c, history)| == |history|
  {
    if history != [] {
      ReplayLength(c, history[..|history| - 1]);
    }
  }

  lemma {:induction false} ReplayRecords(c: Config, history: seq<Login>, i: nat)
    requires i < |history|
    ensures |Replay(c, history)| == |history|
    ensures Replay(c, history)[..i] == Replay(c, history[..i])
    ensures Replay(c, history)[i] == Attempt(history[i].email, history[i].at,
      Outcome(c, Replay(c, history[..i]), history[i]))
  {
    var n := |history| - 1;
    var before := Replay(c, history[..n]);
    assert Replay(c, history) == before + [Attempt(history[n].email, history[n].at, Outcome(c, before, history[n]))];
    if i < n {
      ReplayRecords(c, history[..n], i);
      assert history[..n][..i] == history[..i] && history[..n][i] == history[i];
      assert Replay(c, history)[..i] == before[..i];
    } else {
      ReplayLength(c, history[..n]);
      assert Replay(c, history)[..i] == before;
    }
  }

  // ---- counting in a window ---------------------------------------------------------------

  predicate WrongPassword(a: Attempt, email: string, from: int, until: int) {
    SameEmail(a.email, email) && a.reason.InvalidPassword? && from <= a.at < until
  }

  /** Failed password comparisons for one email in the half-open window [from, until). */
  function WrongPasswords(log: seq<Attempt>, email: string, from: int, until: int): nat {
    if log == [] then 0
    else
      var before := WrongPasswords(log[..|log| - 1], email, from, until);
      if WrongPassword(log[|log| - 1], email, from, until) then before + 1 else before
  }

  /** Every failed comparison inside the window is one of the failures the check counts. */
  lemma {:induction false} WindowCounted(log: seq<Attempt>, email: string, from: int, until: int, other: string,
      since: int)
    requires SameEmail(email, other) && since < from
    ensures WrongPasswords(log, email, from, until) <= RecentFailures(log, other, since)
  {
    if log != [] {
      WindowCounted(log[..|log| - 1], email, from, until, other, since);
    }
  }

  function Allowance(c: Config): nat {
    if c.maxAttempts > 0 then c.maxAttempts else 0
  }

  lemma {:induction false} WindowBound(c: Config, history: seq<Login>, email: string, from: int)
    requires Nondecreasing(history)
    ensures WrongPasswords(Replay(c, history), email, from, from + c.lockout) <= Allowance(c)
    decreases |history|
  {
    if history != [] {
      var n := |history| - 1;
      var log, l := Replay(c, history[..n]), history[n];
      WindowBound(c, history[..n], email, from);
      assert Replay(c, history) == log + [Attempt(l.email, l.at, Outcome(c, log, l))];
      assert Replay(c, history)[..|log|] == log;
      if WrongPassword(Attempt(l.email, l.at, Outcome(c, log, l)), email, from, from + c.lockout) {
        WindowCounted(log, email, from, from + c.lockout, l.email, l.at - c.lockout);
      }
    }
  }

  /** Any half-open window of the lockout's length holds at most MaxLoginAttempts failed password
      comparisons for one email, whatever else is recorded, for every nondecreasing history. */
  lemma AtMostMaxGuessesPerWindow(c: Config, history: seq<Login>, email: string, from: int)
    requires Nondecreasing(history)
    ensures WrongPasswords(Replay(c, history), email, from, from + c.lockout) <= Allowance(c)
  {
    WindowBound(c, history, email, from);
  }

  lemma {:induction false} WindowSplits(log: seq<Attempt>, email: string, from: int, mid: int, until: int)
    requires from <= mid <= until
    ensures WrongPasswords(log, email, from, until)
         == WrongPasswords(log, email, from, mid) + WrongPasswords(log, email, mid, until)
  {
    if log != [] {
      WindowSplits(log[..|log| - 1], email, from, mid, until);
    }
  }

  /** The half-open end is needed: a window closed at both ends, as long as a positive lockout, may hold twice as
      many failed comparisons, but never more. */
  lemma ClosedWindowAtMostTwice(c: Config, history: seq<Login>, email: string, from: int)
    requires Nondecreasing(history) && c.lockout >= 1
    ensures WrongPasswords(Replay(c, history), email, from, from + c.lockout + 1) <= 2 * Allowance(c)
  {
    var log := Replay(c, history);
    WindowSplits(log, email, from, from + 1, from + 1 + c.lockout);
    WindowSplits(log, email, from, from + 1, from + c.lockout);
    WindowBound(c, history, email, from);
    WindowBound(c, history, email, from + 1);
  }

  predicate EndsBy(h: seq<Login>, t: int) {
    Nondecreasing(h) && forall i :: 0 <= i < |h| ==> h[i].at <= t
  }

  lemma EndsBySnoc(h: seq<Login>, l: Login)
    requires EndsBy(h, l.at)
    ensures EndsBy(h + [l], l.at)
  {
    var all := h + [l];
    forall i, j | 0 <= i <= j < |all| ensures all[i].at <= all[j].at {
      assert i < |h| ==> h[i].at <= l.at;
      assert j < |h| ==> h[i].at <= h[j].at;
    }
  }

  /** After these logins the check counts at most k failures since an instant, and n comparisons have failed. */
  predicate Tally(c: Config, h: seq<Login>, e: string, since: int, k: int, n: int) {
    var log := Replay(c, h);
    RecentFailures(log, e, since) <= k && WrongPasswords(log, e, 0, c.lockout + 1) == n
  }

  function Guess(e: string, t: int): Login {
    Login(e, t, Active(false))
  }

  lemma GuessRecorded(c: Config, h: seq<Login>, e: string, t: int)
    requires RecentFailures(Replay(c, h), e, t - c.lockout) < c.maxAttempts
    ensures Replay(c, h + [Guess(e, t)]) == Replay(c, h) + [Attempt(e, t, InvalidPassword)]
  {
    assert (h + [Guess(e, t)])[..|h|] == h;
  }

  lemma FailureSnoc(log: seq<Attempt>, e: string, t: int, since: int, from: int, until: int)
    requires from <= t < until
    ensures RecentFailures(log + [Attempt(e, t, InvalidPassword)], e, since)
      == RecentFailures(log, e, since) + if since < t then 1 else 0
    ensures WrongPasswords(log + [Attempt(e, t, InvalidPassword)], e, from, until)
      == WrongPasswords(log, e, from, until) + 1
  {
    var a := Attempt(e, t, InvalidPassword);
    assert (log + [a])[..|log|] == log && SameEmail(a.email, e);
  }

  /** One more wrong password at time t, while the check lets it through: counted since any instant before t, and
      not since t or later. */
  lemma OneMoreGuess(c: Config, h: seq<Login>, e: string, t: int, since: int, j: int, n: int)
    requires EndsBy(h, t) && 0 <= t <= c.lockout && Tally(c, h, e, since, j, n)
    requires RecentFailures(Replay(c, h), e, t - c.lockout) < c.maxAttempts
    ensures EndsBy(h + [Guess(e, t)], t) && Tally(c, h + [Guess(e, t)], e, since, if since < t then j + 1 else j, n + 1)
  {
    GuessRecorded(c, h, e, t);
    EndsBySnoc(h, Guess(e, t));
    FailureSnoc(Replay(c, h), e, t, since, 0, c.lockout + 1);
  }

  /** Guesses at instant zero: counted since the lockout before it, and not since zero. */
  predicate Burst(c: Config, h: seq<Login>, e: string, n: int) {
    EndsBy(h, 0) && Tally(c, h, e, 0 - c.lockout, n, n) && Tally(c, h, e, 0, 0, n)
  }

  lemma OneMoreAtZero(c: Config, h: seq<Login>, e: string, since: int, j: int, n: int)
    requires EndsBy(h, 0) && c.lockout >= 0 && Tally(c, h, e, since, j, n)
    requires RecentFailures(Replay(c, h), e, 0 - c.lockout) < c.maxAttempts
    ensures EndsBy(h + [Guess(e, 0)], 0)
    ensures Tally(c, h + [Guess(e, 0)], e, since, j + 1, n + 1)
    ensures since >= 0 ==> Tally(c, h + [Guess(e, 0)], e, since, j, n + 1)
  {
    OneMoreGuess(c, h, e, 0, since, j, n);
  }

  lemma BurstGrows(c: Config, h: seq<Login>, e: string, n: int)
    requires Burst(c, h, e, n) && 0 <= n < c.maxAttempts && c.lockout >= 0
    ensures Burst(c, h + [Guess(e, 0)], e, n + 1)
  {
    OneMoreAtZero(c, h, e, 0 - c.lockout, n, n);
    OneMoreAtZero(c, h, e, 0, 0, n);
  }

  lemma {:induction false} FirstBurst(c: Config, e: string, n: nat) returns (h: seq<Login>)
    requires n <= c.maxAttempts && c.lockout >= 0
    ensures Burst(c, h, e, n)
  {
    if n == 0 {
      h := [];
    } else {
      var before := FirstBurst(c, e, n - 1);
      BurstGrows(c, before, e, n - 1);
      h := before + [Guess(e, 0)];
    }
  }

  lemma {:induction false} SecondBurst(c: Config, e: string, n: nat) returns (h: seq<Login>)
    requires 1 <= c.maxAttempts && n <= c.maxAttempts && c.lockout >= 0
    ensures EndsBy(h, c.lockout) && Tally(c, h, e, 0, n, c.maxAttempts + n)
  {
    if n == 0 {
      h := FirstBurst(c, e, c.maxAttempts);
    } else {
      var before := SecondBurst(c, e, n - 1);
      assert c.lockout - c.lockout == 0;
      OneMoreGuess(c, before, e, c.lockout, 0, n - 1, c.maxAttempts + n - 1);
      h := before + [Guess(e, c.lockout)];
    }
  }

  /** That many do fit, for every configuration and email: a full allowance at either end of the window. */
  lemma ClosedWindowHoldsTwice(c: Config, e: string)
    requires c.maxAttempts >= 1 && c.lockout >= 0
    ensures exists h: seq<Login> ::
      Nondecreasing(h) && WrongPasswords(Replay(c, h), e, 0, c.lockout + 1) == 2 * c.maxAttempts
  {
    var h := SecondBurst(c, e, c.maxAttempts);
  }

  // ---- how a lockout ends -----------------------------------------------------------------

  lemma {:induction false} NothingRecent(log: seq<Attempt>, email: string, since: int)
    requires forall a :: a in log ==> !FailedAfter(a, email, since)
    ensures RecentFailures(log, email, since) == 0
  {
    if log != [] {
      NothingRecent(log[..|log| - 1], email, since);
    }
  }

  /** A pause as long as the lockout unlocks the account: with no attempt for that email in the
      last LockoutDuration the next login is not refused as locked. */
  lemma PauseUnlocks(c: Config, history: seq<Login>, l: Login)
    requires c.maxAttempts >= 1
    requires forall k :: 0 <= k < |history| && SameEmail(history[k].email, l.email) ==>
      history[k].at <= l.at - c.lockout
    ensures !Outcome(c, Replay(c, history), l).Locked?
  {
    var log := Replay(c, history);
    if history != [] {
      ReplayRecords(c, history, 0);
    }
    forall a | a in log ensures !FailedAfter(a, l.email, l.at - c.lockout) {
      var i :| 0 <= i < |log| && log[i] == a;
      ReplayRecords(c, history, i);
    }
    NothingRecent(log, l.email, l.at - c.lockout);
  }

  /** Login i was for the email of l, within the lockout before it, and did not succeed. */
  predicate RefusedBefore(c: Config, history: seq<Login>, l: Login, i: int) {
    && 0 <= i < |history| && SameEmail(history[i].email, l.email) && history[i].at > l.at - c.lockout
    && !Outcome(c, Replay(c, history[..i]), history[i]).LoggedIn?
  }

  /** The logins a check for l counts. */
  ghost function Refusals(c: Config, history: seq<Login>, l: Login): set<int> {
    set i | 0 <= i < |history| && RefusedBefore(c, history, l, i)
  }

  lemma EarlierRefusals(c: Config, history: seq<Login>, l: Login, i: int)
    requires 0 <= i < |history| - 1
    ensures RefusedBefore(c, history[..|history| - 1], l, i) == RefusedBefore(c, history, l, i)
  {
    assert history[..|history| - 1][..i] == history[..i];
  }

  lemma OneMoreIndex(n: nat, earlier: set<int>, all: set<int>)
    requires (forall i :: i in earlier ==> 0 <= i < n) && forall i :: i in all ==> 0 <= i <= n
    requires forall i: int :: 0 <= i < n ==> (i in earlier <==> i in all)
    ensures |all| == |earlier| + if n in all then 1 else 0
  {
    forall i ensures i in all <==> i in earlier || (i == n && n in all) {
      assert 0 <= i < n ==> (i in earlier <==> i in all);
    }
    var last: set<int> := if n in all then {n} else {};
    assert all == earlier + last && earlier !! last;
  }

  lemma RefusalsSnoc(c: Config, history: seq<Login>, l: Login)
    requires history != []
    ensures var n := |history| - 1;
      |Refusals(c, history, l)| == |Refusals(c, history[..n], l)| + if RefusedBefore(c, history, l, n) then 1 else 0
  {
    var n := |history| - 1;
    var earlier, all := Refusals(c, history[..n], l), Refusals(c, history, l);
    forall i | 0 <= i < n ensures i in earlier <==> i in all {
      EarlierRefusals(c, history, l, i);
    }
    OneMoreIndex(n, earlier, all);
  }

  lemma {:induction false} RefusalsCount(c: Config, history: seq<Login>, l: Login)
    ensures RecentFailures(Replay(c, history), l.email, l.at - c.lockout) == |Refusals(c, history, l)|
  {
    if history == [] {
      assert Refusals(c, history, l) == {};
    } else {
      var n := |history| - 1;
      var log := Replay(c, history[..n]);
      RefusalsCount(c, history[..n], l);
      RefusalsSnoc(c, history, l);
      var a := Attempt(history[n].email, history[n].at, Outcome(c, log, history[n]));
      assert Replay(c, history) == log + [a] && (log + [a])[..|log|] == log;
      assert FailedAfter(a, l.email, l.at - c.lockout) == RefusedBefore(c, history, l, n);
    }
  }

  lemma OutcomeLocked(c: Config, log: seq<Attempt>, l: Login)
    ensures Outcome(c, log, l) == Locked <==> RecentFailures(log, l.email, l.at - c.lockout) >= c.maxAttempts
  {
  }

  /** A login is refused as locked exactly when at least MaxLoginAttempts earlier ones for its email, within the
      lockout before it, did not succeed; those refused as locked count among them, so a lockout does not end while
      enough logins keep coming, whatever other accounts do meanwhile. */
  lemma LockedIff(c: Config, history: seq<Login>, l: Login)
    ensures Outcome(c, Replay(c, history), l) == Locked <==> |Refusals(c, history, l)| >= c.maxAttempts
  {
    RefusalsCount(c, history, l);
    OutcomeLocked(c, Replay(c, history), l);
  }

  // ---- who logs in ------------------------------------------------------------------------

  lemma OneMoreFailure(log: seq<Attempt>, email: string, since: int)
    requires log != []
    ensures var n := |log| - 1;
      |Failures(log, email, since)| ==
        |Failures(log[..n], email, since)| + if FailedAfter(log[n], email, since) then 1 else 0
  {
    var n := |log| - 1;
    forall i: int | 0 <= i < n ensures i in Failures(log[..n], email, since) <==> i in Failures(log, email, since) {
      assert log[..n][i] == log[i];
    }
    OneMoreIndex(n, Failures(log[..n], email, since), Failures(log, email, since));
  }

  /** The attempts in a log the count is of. */
  function Failures(log: seq<Attempt>, email: string, since: int): set<int> {
    set i | 0 <= i < |log|
      && Like.Lower(log[i].email) == Like.Lower(email) && log[i].reason != LoggedIn && log[i].at > since
  }

  lemma {:induction false} CountIsSize(log: seq<Attempt>, email: string, since: int)
    ensures RecentFailures(log, email, since) == |Failures(log, email, since)|
  {
    if log != [] {
      CountIsSize(log[..|log| - 1], email, since);
      OneMoreFailure(log, email, since);
    } else {
      assert Failures(log, email, since) == {};
    }
  }

  lemma RecordByFailures(c: Config, log: seq<Attempt>, l: Login)
    ensures var reason, failures := Outcome(c, log, l), |Failures(log, l.email, l.at - c.lockout)|;
      && (reason == Locked <==> failures >= c.maxAttempts)
      && (reason == UserNotFound <==> failures < c.maxAttempts && l.account == Unknown)
      && (reason == AccountInactive <==> failures < c.maxAttempts && l.account == Inactive)
      && (reason == InvalidPassword <==> failures < c.maxAttempts && l.account == Active(false))
      && (reason == LoggedIn <==> failures < c.maxAttempts && l.account == Active(true))
  {
    CountIsSize(log, l.email, l.at - c.lockout);
  }

  /** One login against any log, told by the account and the number of attempts that count. */
  lemma RecordLaw(c: Config, log: seq<Attempt>, l: Login)
    ensures var t := Record(c, log, l);
      var reason := t[|log|].reason;
      var failures := |set i | 0 <= i < |log| && Like.Lower(log[i].email) == Like.Lower(l.email)
                                && log[i].reason != LoggedIn && log[i].at > l.at - c.lockout|;
      && |t| == |log| + 1 && t[..|log|] == log && t[|log|].email == l.email && t[|log|].at == l.at
      && (reason == Locked <==> failures >= c.maxAttempts)
      && (reason == UserNotFound <==> failures < c.maxAttempts && l.account == Unknown)
      && (reason == AccountInactive <==> failures < c.maxAttempts && l.account == Inactive)
      && (reason == InvalidPassword <==> failures < c.maxAttempts && l.account == Active(false))
      && (reason == LoggedIn <==> failures < c.maxAttempts && l.account == Active(true))
  {
    RecordByFailures(c, log, l);
    assert Failures(log, l.email, l.at - c.lockout) ==
      set i | 0 <= i < |log| && Like.Lower(log[i].email) == Like.Lower(l.email)
        && log[i].reason != LoggedIn && log[i].at > l.at - c.lockout;
  }

  /** The logins of a history that succeed, told without a log: those with the right password of an active account
      that fewer than the allowed number of unsuccessful ones for the email came shortly before. */
  function Successes(c: Config, history: seq<Login>): set<int> {
    if history == [] then {}
    else
      var n := |history| - 1;
      var before := Successes(c, history[..n]);
      if history[n].account == Active(true) && |Unsuccessful(c, history, n, before)| < c.maxAttempts
      then before + {n} else before
  }

  /** The logins before the n-th for its email, within the lockout before it, that are not among the given. */
  function Unsuccessful(c: Config, history: seq<Login>, n: nat, successes: set<int>): set<int>
    requires n < |history|
  {
    set i | 0 <= i < n && Like.Lower(history[i].email) == Like.Lower(history[n].email)
      && history[i].at > history[n].at - c.lockout && i !in successes
  }

  /** The log of a history, entry by entry. */
  ghost predicate Logs(log: seq<Attempt>, history: seq<Login>, successes: set<int>) {
    && |log| == |history|
    && (forall i :: i in successes ==> 0 <= i < |log|)
    && forall i :: 0 <= i < |log| ==>
         && log[i].email == history[i].email && log[i].at == history[i].at
         && (log[i].reason == LoggedIn <==> i in successes)
  }

  /** Counting in the log and counting in the history come to the same. */
  lemma SameFailures(c: Config, log: seq<Attempt>, history: seq<Login>, n: nat, successes: set<int>)
    requires n < |history| && Logs(log, history[..n], successes)
    ensures Unsuccessful(c, history, n, successes) == Failures(log, history[n].email, history[n].at - c.lockout)
  {
    assert forall i :: 0 <= i < n ==> history[..n][i] == history[i];
  }

  lemma LogsSnoc(log: seq<Attempt>, history: seq<Login>, successes: set<int>, a: Attempt)
    requires history != [] && Logs(log, history[..|history| - 1], successes)
    requires a.email == history[|history| - 1].email && a.at == history[|history| - 1].at
    ensures Logs(log + [a], history, successes + if a.reason == LoggedIn then {|log|} else {})
  {
    var n, all := |log|, successes + if a.reason == LoggedIn then {|log|} else {};
    forall i | 0 <= i <= n
      ensures (log + [a])[i].email == history[i].email && (log + [a])[i].at == history[i].at
      ensures (log + [a])[i].reason == LoggedIn <==> i in all
    {
      if i < n {
        assert history[..n][i] == history[i];
      }
    }
  }

  lemma NextSucceeds(c: Config, log: seq<Attempt>, history: seq<Login>, successes: set<int>)
    requires history != [] && Logs(log, history[..|history| - 1], successes)
    ensures var n := |history| - 1;
      Outcome(c, log, history[n]) == LoggedIn <==>
        history[n].account == Active(true) && |Unsuccessful(c, history, n, successes)| < c.maxAttempts
  {
    var n := |history| - 1;
    SameFailures(c, log, history, n, successes);
    RecordByFailures(c, log, history[n]);
  }

  lemma SuccessesSnoc(c: Config, history: seq<Login>, success: bool)
    requires history != []
    requires var n := |history| - 1; success <==>
      history[n].account == Active(true)
      && |Unsuccessful(c, history, n, Successes(c, history[..n]))| < c.maxAttempts
    ensures var n := |history| - 1;
      Successes(c, history) == Successes(c, history[..n]) + if success then {n} else {}
  {
  }

  lemma {:induction false} SuccessesAreLogged(c: Config, history: seq<Login>)
    ensures Logs(Replay(c, history), history, Successes(c, history))
  {
    if history != [] {
      var n := |history| - 1;
      var log, before, l := Replay(c, history[..n]), Successes(c, history[..n]), history[n];
      var a := Attempt(l.email, l.at, Outcome(c, log, l));
      SuccessesAreLogged(c, history[..n]);
      NextSucceeds(c, log, history, before);
      SuccessesSnoc(c, history, a.reason == LoggedIn);
      LogsSnoc(log, history, before, a);
      assert Replay(c, history) == log + [a];
    }
  }

  /** Later logins do not change what counted for an earlier one. */
  lemma {:induction false} SuccessesPrefix(c: Config, history: seq<Login>, n: nat)
    requires n <= |history|
    ensures forall i :: i in Successes(c, history[..n]) <==> i in Successes(c, history) && i < n
    decreases |history|
  {
    SuccessesAreLogged(c, history[..n]);
    if n == |history| {
      assert history[..n] == history;
    } else {
      var m := |history| - 1;
      SuccessesPrefix(c, history[..m], n);
      SuccessesAreLogged(c, history[..m]);
      assert history[..m][..n] == history[..n];
    }
  }

  lemma FailuresAt(c: Config, history: seq<Login>, n: nat)
    requires n < |history|
    ensures Unsuccessful(c, history, n, Successes(c, history)) ==
      Failures(Replay(c, history[..n]), history[n].email, history[n].at - c.lockout)
  {
    SuccessesAreLogged(c, history[..n]);
    SuccessesPrefix(c, history, n);
    SameFailures(c, Replay(c, history[..n]), history, n, Successes(c, history[..n]));
    assert Unsuccessful(c, history, n, Successes(c, history)) ==
      Unsuccessful(c, history, n, Successes(c, history[..n]));
  }

  /** Over every history, each login's outcome by the account it met and the number of unsuccessful logins for its
      email within the lockout before it. */
  lemma OutcomesInEveryHistory(c: Config, history: seq<Login>, n: nat)
    requires n < |history|
    ensures |Replay(c, history)| == |history|
    ensures var reason, account := Replay(c, history)[n].reason, history[n].account;
      var failures := |Unsuccessful(c, history, n, Successes(c, history))|;
      && (n in Successes(c, history) <==> account == Active(true) && failures < c.maxAttempts)
      && (reason == Locked <==> failures >= c.maxAttempts)
      && (reason == UserNotFound <==> failures < c.maxAttempts && account == Unknown)
      && (reason == AccountInactive <==> failures < c.maxAttempts && account == Inactive)
      && (reason == InvalidPassword <==> failures < c.maxAttempts && account == Active(false))
      && (reason == LoggedIn <==> n in Successes(c, history))
  {
    ReplayLength(c, history);
    var log, reason := Replay(c, history[..n]), Replay(c, history)[n].reason;
    assert reason == Outcome(c, log, history[n]) by {
      ReplayRecords(c, history, n);
    }
    assert n in Successes(c, history) <==> reason == LoggedIn by {
      SuccessesAreLogged(c, history);
    }
    var failures := |Failures(log, history[n].email, history[n].at - c.lockout)|;
    assert |Unsuccessful(c, history, n, Successes(c, history))| == failures by {
      FailuresAt(c, history, n);
    }
    RecordByFailures(c, log, history[n]);
  }

  // ---- the service ------------------------------------------------------------------------

  class AuthService {
    const config: Config
    var attempts: seq<Attempt>

    constructor (c: Config)
      ensures config == c && attempts == []
    {
      config, attempts := c, [];
    }

    /** The COUNT query over the attempts table. */
    method GetRecentFailedAttempts(email: string, since: int) returns (count: nat)
      ensures count == RecentFailures(attempts, email, since)
      ensures count == |set i | 0 <= i < |attempts| && Like.Lower(attempts[i].email) == Like.Lower(email)
                                 && attempts[i].reason != LoggedIn && attempts[i].at > since|
    {
      CountIsSize(attempts, email, since);
      assert Failures(attempts, email, since) ==
        set i | 0 <= i < |attempts| && Like.Lower(attempts[i].email) == Like.Lower(email)
          && attempts[i].reason != LoggedIn && attempts[i].at > since;
      count := 0;
      for i := 0 to |attempts|
        invariant count == RecentFailures(attempts[..i], email, since)
      {
        assert attempts[..i + 1][..i] == attempts[..i];
        if SameEmail(attempts[i].email, email) && attempts[i].reason != LoggedIn && attempts[i].at > since {
          count := count + 1;
        }
      }
      assert attempts[..|attempts|] == attempts;
    }

    method RecordLoginAttempt(email: string, at: int, reason: Reason)
      modifies this`attempts
      ensures attempts == old(attempts) + [Attempt(email, at, reason)]
    {
      attempts := attempts + [Attempt(email, at, reason)];
    }

    /** One login: the lockout check, the account checks, and the record each path leaves. */
    method DoLogin(l: Login) returns (ok: bool)
      modifies this`attempts
      ensures attempts == Record(config, old(attempts), l)
      ensures |attempts| == |old(attempts)| + 1 && attempts[..|old(attempts)|] == old(attempts)
      ensures var failures := |set i | 0 <= i < |old(attempts)|
            && Like.Lower(old(attempts)[i].email) == Like.Lower(l.email)
            && old(attempts)[i].reason != LoggedIn && old(attempts)[i].at > l.at - config.lockout|;
        var last := attempts[|old(attempts)|];
        && (ok <==> l.account == Active(true) && failures < config.maxAttempts)
        && (last.reason == Locked <==> failures >= config.maxAttempts)
        && (last.reason == UserNotFound <==> failures < config.maxAttempts && l.account == Unknown)
        && (last.reason == AccountInactive <==> failures < config.maxAttempts && l.account == Inactive)
        && (last.reason == InvalidPassword <==> failures < config.maxAttempts && l.account == Active(false))
        && (last.reason == LoggedIn <==> ok)
    {
      RecordLaw(config, attempts, l);
      var failed := GetRecentFailedAttempts(l.email, l.at - config.lockout);
      if failed >= config.maxAttempts {
        RecordLoginAttempt(l.email, l.at, Locked);
        return false;
      }
      if l.account.Unknown? {
        RecordLoginAttempt(l.email, l.at, UserNotFound);
        return false;
      }
      if l.account.Inactive? {
        RecordLoginAttempt(l.email, l.at, AccountInactive);
        return false;
      }
      if !l.account.passwordMatches {
        RecordLoginAttempt(l.email, l.at, InvalidPassword);
        return false;
      }
      RecordLoginAttempt(l.email, l.at, LoggedIn);
      ok := true;
    }
  }
}
