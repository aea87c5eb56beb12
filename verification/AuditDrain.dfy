/** The asynchronous audit logger, as interleaved atomic steps. */
module AuditDrain {
  // Producers, N workers on a bounded channel, overflow goroutines, and the drain-on-close handshake.
  // The n-th `LogAsync` call logs event n, so an event number names one call.

  /** Where a worker goroutine is: in the outer select, inserting an event taken there, in the
      drain loop after it saw the close channel, inserting an event taken there, or returned. */
  datatype Worker =
    | Waiting
    | Inserting(event: nat)
    | Draining
    | DrainInserting(drained: nat)
    | Returned

  /** `inserted` and `overflowInserted` hold the events whose insert was attempted, by a worker
      or by an overflow goroutine. `accepted`, `claimed`, `beforeClose` are history only: the
      events the channel took in order, how many of them a worker has received, and how many it
      had taken when the close channel was closed. No step's guard reads them. */
  datatype Logger = Logger(
    capacity: nat,
    queue: seq<nat>,
    workers: seq<Worker>,
    overflow: multiset<nat>,
    inserted: seq<nat>,
    overflowInserted: multiset<nat>,
    closed: bool,
    calls: nat,
    accepted: seq<nat>,
    claimed: nat,
    beforeClose: nat)

  datatype Step =
    | Enqueue                 // LogAsync, the channel has room
    | Handoff(to: nat)        // LogAsync, taken directly by a worker parked in the outer select
    | Overflow                // LogAsync, channel full: insert in a new goroutine
    | OverflowInsert(e: nat)  // that goroutine's insert
    | Receive(w: nat)         // worker takes an event in the outer select
    | Insert(w: nat)          // worker's insert of the event it holds
    | SeeClosed(w: nat)       // worker takes the close branch
    | DrainReceive(w: nat)    // worker takes an event in the drain loop
    | DrainReturn(w: nat)     // drain loop finds the channel empty
    | CloseChan               // Close closes the close channel

  function Init(capacity: nat, workers: nat): Logger {
    Logger(capacity, [], seq(workers, _ => Waiting), multiset{}, [], multiset{}, false, 0, [], 0, 0)
  }

  predicate Enabled(s: Logger, step: Step) {
    match step
    case Enqueue => |s.queue| < s.capacity
    case Handoff(w) => w < |s.workers| && s.queue == [] && s.workers[w].Waiting?
    case Overflow => |s.queue| >= s.capacity
    case OverflowInsert(e) => e in s.overflow
    case Receive(w) => w < |s.workers| && s.queue != [] && s.workers[w].Waiting?
    case Insert(w) => w < |s.workers| && (s.workers[w].Inserting? || s.workers[w].DrainInserting?)
    case SeeClosed(w) => w < |s.workers| && s.closed && s.workers[w].Waiting?
    case DrainReceive(w) => w < |s.workers| && s.queue != [] && s.workers[w].Draining?
    case DrainReturn(w) => w < |s.workers| && s.queue == [] && s.workers[w].Draining?
    case CloseChan => !s.closed
  }

  function Apply(s: Logger, step: Step): Logger
    requires Enabled(s, step)
  {
    match step
    case Enqueue =>
      s.(queue := s.queue + [s.calls], accepted := s.accepted + [s.calls], calls := s.calls + 1)
    case Handoff(w) =>
      s.(workers := s.workers[w := Inserting(s.calls)], accepted := s.accepted + [s.calls],
         claimed := s.claimed + 1, calls := s.calls + 1)
    case Overflow =>
      s.(overflow := s.overflow + multiset{s.calls}, calls := s.calls + 1)
    case OverflowInsert(e) =>
      s.(overflow := s.overflow - multiset{e}, overflowInserted := s.overflowInserted + multiset{e})
    case Receive(w) =>
      s.(workers := s.workers[w := Inserting(s.queue[0])], queue := s.queue[1..], claimed := s.claimed + 1)
    case Insert(w) =>
      match s.workers[w] {
        case Inserting(e) => s.(workers := s.workers[w := Waiting], inserted := s.inserted + [e])
        case DrainInserting(e) => s.(workers := s.workers[w := Draining], inserted := s.inserted + [e])
      }
    case SeeClosed(w) => s.(workers := s.workers[w := Draining])
    case DrainReceive(w) =>
      s.(workers := s.workers[w := DrainInserting(s.queue[0])], queue := s.queue[1..], claimed := s.claimed + 1)
    case DrainReturn(w) => s.(workers := s.workers[w := Returned])
    case CloseChan => s.(closed := true, beforeClose := |s.accepted|)
  }

  /** Every step of the schedule is enabled when it is taken. */
  predicate Runs(s: Logger, steps: seq<Step>)
    decreases |steps|
  {
    steps == [] || (Enabled(s, steps[0]) && Runs(Apply(s, steps[0]), steps[1..]))
  }

  function After(s: Logger, steps: seq<Step>): Logger
    requires Runs(s, steps)
    decreases |steps|
  {
    if steps == [] then s else After(Apply(s, steps[0]), steps[1..])
  }

  /** `wg.Wait()` has been passed: every worker has returned. */
  predicate CloseReturned(s: Logger) {
    s.closed && forall w :: 0 <= w < |s.workers| ==> s.workers[w].Returned?
  }

  function Attempts(s: Logger, e: nat): nat {
    multiset(s.inserted)[e] + s.overflowInserted[e]
  }

  // ---- the events in workers' hands -------------------------------------------------------

  function Held(w: Worker): seq<nat> {
    match w
    case Inserting(e) => [e]
    case DrainInserting(e) => [e]
    case _ => []
  }

  function InHands(ws: seq<Worker>, e: nat): nat {
    if ws == [] then 0 else (if Held(ws[0]) == [e] then 1 else 0) + InHands(ws[1..], e)
  }

  lemma {:induction false} InHandsAfterUpdate(ws: seq<Worker>, w: nat, x: Worker, e: nat)
    requires w < |ws|
    ensures InHands(ws[w := x], e) + (if Held(ws[w]) == [e] then 1 else 0)
         == InHands(ws, e) + (if Held(x) == [e] then 1 else 0)
  {
    if w == 0 {
      assert ws[0 := x][1..] == ws[1..];
    } else {
      assert ws[w := x][1..] == ws[1..][w - 1 := x];
      InHandsAfterUpdate(ws[1..], w - 1, x, e);
    }
  }

  lemma {:induction false} IdleHandsAreEmpty(ws: seq<Worker>, e: nat)
    requires forall w :: 0 <= w < |ws| ==> Held(ws[w]) == []
    ensures InHands(ws, e) == 0
  {
    if ws != [] {
      IdleHandsAreEmpty(ws[1..], e);
    }
  }

  /** In how many places event e is: the queue, workers' hands, overflow goroutines, attempted. */
  function Places(s: Logger, e: nat): nat {
    multiset(s.queue)[e] + InHands(s.workers, e) + s.overflow[e] + Attempts(s, e)
  }

  // ---- the invariant ----------------------------------------------------------------------

  /** Each logged event is in exactly one place. */
  ghost predicate Conserved(s: Logger) {
    forall e: nat :: Places(s, e) == if e < s.calls then 1 else 0
  }

  /** The channel is a FIFO over the accepted events. */
  ghost predicate Fifo(s: Logger) {
    && s.claimed <= |s.accepted|
    && s.queue == s.accepted[s.claimed..]
    && |s.queue| <= s.capacity
    && (forall i, j :: 0 <= i < j < |s.accepted| ==> s.accepted[i] < s.accepted[j])
    && (forall i :: 0 <= i < |s.accepted| ==> s.accepted[i] < s.calls)
    && (forall e :: e in s.overflow || e in s.overflowInserted ==> e < s.calls && e !in s.accepted)
  }

  /** No worker leaves before close, and none returns while an event from before close is queued. */
  ghost predicate Handshake(s: Logger) {
    && (s.closed ==> s.beforeClose <= |s.accepted|)
    && (forall w :: 0 <= w < |s.workers| && !s.workers[w].Waiting? && !s.workers[w].Inserting? ==> s.closed)
    && (forall w :: 0 <= w < |s.workers| && s.workers[w].Returned? ==> s.beforeClose <= s.claimed)
  }

  ghost predicate Inv(s: Logger) {
    Conserved(s) && Fifo(s) && Handshake(s)
  }

  lemma InitInv(capacity: nat, workers: nat)
    ensures Inv(Init(capacity, workers))
  {
    forall e: nat ensures Places(Init(capacity, workers), e) == 0 {
      IdleHandsAreEmpty(Init(capacity, workers).workers, e);
    }
  }

  lemma CountAppend(q: seq<nat>, x: nat, e: nat)
    ensures multiset(q + [x])[e] == multiset(q)[e] + if x == e then 1 else 0
  {
  }

  lemma CountTail(q: seq<nat>, e: nat)
    requires q != []
    ensures multiset(q)[e] == multiset(q[1..])[e] + if q[0] == e then 1 else 0
  {
    assert q == [q[0]] + q[1..];
  }

  /** A step moves events between places; only a LogAsync call makes one, the next number. */
  lemma StepMovesEvent(s: Logger, step: Step, e: nat)
    requires Enabled(s, step)
    ensures Places(Apply(s, step), e) == Places(s, e) + if IsLogCall(step) && e == s.calls then 1 else 0
  {
    if step.CloseChan? {
    } else if IsLogCall(step) {
      LogCallMovesEvent(s, step, e);
    } else if step.OverflowInsert? {
      OverflowMovesEvent(s, step, e);
    } else if step.Receive? || step.DrainReceive? {
      ReceiveMovesEvent(s, step, e);
    } else {
      WorkerMovesEvent(s, step, e);
    }
  }

  lemma LogCallMovesEvent(s: Logger, step: Step, e: nat)
    requires IsLogCall(step) && Enabled(s, step)
    ensures Places(Apply(s, step), e) == Places(s, e) + if e == s.calls then 1 else 0
  {
    match step
    case Enqueue => CountAppend(s.queue, s.calls, e);
    case Overflow => assert Apply(s, step).overflow[e] == s.overflow[e] + if e == s.calls then 1 else 0;
    case Handoff(w) => InHandsAfterUpdate(s.workers, w, Inserting(s.calls), e);
  }

  lemma OverflowMovesEvent(s: Logger, step: Step, e: nat)
    requires step.OverflowInsert? && Enabled(s, step)
    ensures Places(Apply(s, step), e) == Places(s, e)
  {
    var t := Apply(s, step);
    assert t.overflow[e] == s.overflow[e] - if e == step.e then 1 else 0;
    assert t.overflowInserted[e] == s.overflowInserted[e] + if e == step.e then 1 else 0;
  }

  lemma ReceiveMovesEvent(s: Logger, step: Step, e: nat)
    requires (step.Receive? || step.DrainReceive?) && Enabled(s, step)
    ensures Places(Apply(s, step), e) == Places(s, e)
  {
    CountTail(s.queue, e);
    InHandsAfterUpdate(s.workers, step.w, Apply(s, step).workers[step.w], e);
  }

  lemma WorkerMovesEvent(s: Logger, step: Step, e: nat)
    requires (step.Insert? || step.SeeClosed? || step.DrainReturn?) && Enabled(s, step)
    ensures Places(Apply(s, step), e) == Places(s, e)
  {
    match step
    case SeeClosed(w) => InHandsAfterUpdate(s.workers, w, Draining, e);
    case DrainReturn(w) => InHandsAfterUpdate(s.workers, w, Returned, e);
    case Insert(w) =>
      var idle := if s.workers[w].Inserting? then Waiting else Draining;
      var x := Held(s.workers[w])[0];
      InHandsAfterUpdate(s.workers, w, idle, e);
      CountAppend(s.inserted, x, e);
      assert Apply(s, step) == s.(workers := s.workers[w := idle], inserted := s.inserted + [x]);
  }

  lemma StepConserves(s: Logger, step: Step)
    requires Inv(s) && Enabled(s, step)
    ensures Conserved(Apply(s, step))
  {
    forall e: nat ensures Places(Apply(s, step), e) == if e < Apply(s, step).calls then 1 else 0 {
      StepMovesEvent(s, step, e);
    }
  }

  lemma LoggingKeepsFifo(s: Logger, step: Step)
    requires Inv(s) && Enabled(s, step) && (step.Enqueue? || step.Handoff? || step.Overflow?)
    ensures Fifo(Apply(s, step))
  {
    var t := Apply(s, step);
    if !step.Overflow? {
      assert t.accepted[..|s.accepted|] == s.accepted && t.accepted[|s.accepted|] == s.calls;
      assert t.queue == t.accepted[t.claimed..];
    }
    forall e | e in t.overflow || e in t.overflowInserted ensures e < t.calls && e !in t.accepted {
      assert e in s.overflow || e in s.overflowInserted || (step.Overflow? && e == s.calls);
    }
  }

  lemma StepKeepsFifo(s: Logger, step: Step)
    requires Inv(s) && Enabled(s, step)
    ensures Fifo(Apply(s, step))
  {
    if step.Enqueue? || step.Handoff? || step.Overflow? {
      LoggingKeepsFifo(s, step);
    } else {
      var t := Apply(s, step);
      assert t.accepted == s.accepted;
      assert t.queue == t.accepted[t.claimed..];
      forall e | e in t.overflow || e in t.overflowInserted ensures e < t.calls && e !in t.accepted {
        assert e in s.overflow || e in s.overflowInserted;
      }
    }
  }

  lemma StepKeepsHandshake(s: Logger, step: Step)
    requires Inv(s) && Enabled(s, step)
    ensures Handshake(Apply(s, step))
  {
  }

  lemma StepKeepsInv(s: Logger, step: Step)
    requires Inv(s) && Enabled(s, step)
    ensures Inv(Apply(s, step))
  {
    StepConserves(s, step);
    StepKeepsFifo(s, step);
    StepKeepsHandshake(s, step);
  }

  lemma {:induction false} RunKeepsInv(s: Logger, steps: seq<Step>)
    requires Inv(s) && Runs(s, steps)
    ensures Inv(After(s, steps))
    decreases |steps|
  {
    if steps != [] {
      StepKeepsInv(s, steps[0]);
      RunKeepsInv(Apply(s, steps[0]), steps[1..]);
    }
  }

  // ---- main results -----------------------------------------------------------------------

  /** In every interleaving each logged event is in exactly one place, and no other event exists. */
  lemma ExactlyOnePlace(capacity: nat, workers: nat, steps: seq<Step>, e: nat)
    requires Runs(Init(capacity, workers), steps)
    ensures var s := After(Init(capacity, workers), steps);
      multiset(s.queue)[e] + InHands(s.workers, e) + s.overflow[e] + Attempts(s, e)
      == if e < s.calls then 1 else 0
  {
    InitInv(capacity, workers);
    RunKeepsInv(Init(capacity, workers), steps);
    assert Conserved(After(Init(capacity, workers), steps));
    var s := After(Init(capacity, workers), steps);
    assert Places(s, e) == if e < s.calls then 1 else 0;
  }

  lemma {:induction false} HistoryGrows(s: Logger, steps: seq<Step>)
    requires Runs(s, steps)
    ensures var t := After(s, steps);
      && s.accepted <= t.accepted && |s.workers| == |t.workers| && s.capacity == t.capacity
      && (!s.closed && t.closed ==> |s.accepted| <= t.beforeClose <= |t.accepted|)
      && (s.closed ==> t.closed && t.beforeClose == s.beforeClose)
    decreases |steps|
  {
    if steps != [] {
      var u := Apply(s, steps[0]);
      HistoryGrows(u, steps[1..]);
      assert s.accepted <= u.accepted;
    }
  }

  /** An event taken from the channel that no worker holds any more was inserted once. */
  lemma ClaimedAndReleasedMeansInserted(s: Logger, i: nat)
    requires Inv(s) && i < s.claimed && InHands(s.workers, s.accepted[i]) == 0
    ensures Attempts(s, s.accepted[i]) == 1
  {
    var e := s.accepted[i];
    assert Places(s, e) == 1;
    assert e !in s.queue by {
      forall k | 0 <= k < |s.queue| ensures s.queue[k] != e {
        assert s.queue[k] == s.accepted[s.claimed + k];
      }
    }
    assert e in s.accepted;
  }

  /** When Close returns, every event the channel took before the close channel was closed has had
      its insert attempted exactly once. At least one worker is needed. */
  lemma CloseDrainsEarlierEvents(capacity: nat, workers: nat, early: seq<Step>, late: seq<Step>)
    requires workers >= 1
    requires Runs(Init(capacity, workers), early)
    requires !After(Init(capacity, workers), early).closed
    requires Runs(After(Init(capacity, workers), early), late)
    requires CloseReturned(After(After(Init(capacity, workers), early), late))
    ensures var s := After(Init(capacity, workers), early); var t := After(s, late);
      forall e :: e in s.accepted ==> Attempts(t, e) == 1
  {
    InitInv(capacity, workers);
    RunKeepsInv(Init(capacity, workers), early);
    HistoryGrows(Init(capacity, workers), early);
    var s := After(Init(capacity, workers), early);
    RunKeepsInv(s, late);
    HistoryGrows(s, late);
    var t := After(s, late);
    assert t.workers[0].Returned?;
    forall e | e in s.accepted ensures Attempts(t, e) == 1 {
      var i :| 0 <= i < |s.accepted| && s.accepted[i] == e;
      assert t.accepted[i] == e;
      IdleHandsAreEmpty(t.workers, e);
      ClaimedAndReleasedMeansInserted(t, i);
    }
  }

  /** What Close can leave behind, exactly: an event is unattempted when Close returns iff its
      overflow goroutine is still running or it entered the channel after the close and is
      stranded there. */
  lemma UnattemptedAtClose(capacity: nat, workers: nat, steps: seq<Step>, e: nat)
    requires workers >= 1
    requires Runs(Init(capacity, workers), steps)
    requires CloseReturned(After(Init(capacity, workers), steps))
    requires e < After(Init(capacity, workers), steps).calls
    ensures var t := After(Init(capacity, workers), steps);
      && t.beforeClose <= t.claimed <= |t.accepted|
      && (Attempts(t, e) == 0 <==> e in t.overflow || e in t.accepted[t.claimed..])
  {
    ExactlyOnePlace(capacity, workers, steps, e);
    InitInv(capacity, workers);
    RunKeepsInv(Init(capacity, workers), steps);
    HistoryGrows(Init(capacity, workers), steps);
    var t := After(Init(capacity, workers), steps);
    assert t.workers[0].Returned?;
    IdleHandsAreEmpty(t.workers, e);
    assert (multiset(t.queue)[e] > 0) == (e in t.queue);
  }

  ghost predicate AllAttempted(s: Logger) {
    forall e: nat :: e < s.calls ==> Attempts(s, e) == 1
  }

  /** What is left when Close has returned is in overflow goroutines and in the queue. */
  lemma AttemptedAtReturn(t: Logger)
    requires Inv(t) && CloseReturned(t)
    ensures AllAttempted(t) <==> t.overflow == multiset{} && t.queue == []
  {
    forall e: nat | e < t.calls ensures Attempts(t, e) == 1 <==> e !in t.overflow && e !in t.queue {
      IdleHandsAreEmpty(t.workers, e);
      assert Places(t, e) == 1;
      assert (multiset(t.queue)[e] > 0) == (e in t.queue);
    }
    if t.queue != [] {
      assert t.queue[0] == t.accepted[t.claimed] && t.queue[0] in t.queue;
    }
    if t.overflow != multiset{} {
      var e :| e in t.overflow;
      assert e < t.calls;
    }
  }

  /** With a single worker the inserts it attempts follow the order the channel took the events. */
  ghost predicate InOrder(s: Logger) {
    |s.workers| == 1 ==>
      s.claimed <= |s.accepted| && s.inserted + Held(s.workers[0]) == s.accepted[..s.claimed]
  }

  lemma SingleWorkerStepInOrder(s: Logger, step: Step)
    requires Fifo(s) && InOrder(s) && Enabled(s, step)
    ensures InOrder(Apply(s, step))
  {
    var t := Apply(s, step);
    if step.Receive? || step.DrainReceive? {
      assert s.accepted[s.claimed] == s.queue[0];
      assert t.accepted[..t.claimed] == s.accepted[..s.claimed] + [s.queue[0]];
    } else if step.Handoff? {
      assert t.accepted[..t.claimed] == s.accepted[..s.claimed] + [s.calls];
    } else {
      assert t.accepted[..t.claimed] == s.accepted[..s.claimed];
    }
  }

  lemma {:induction false} SingleWorkerInsertsInOrder(s: Logger, steps: seq<Step>)
    requires |s.workers| == 1 && Inv(s) && InOrder(s) && Runs(s, steps)
    ensures |After(s, steps).workers| == 1 && InOrder(After(s, steps))
    ensures After(s, steps).inserted <= After(s, steps).accepted
    decreases |steps|
  {
    if steps != [] {
      StepKeepsInv(s, steps[0]);
      SingleWorkerStepInOrder(s, steps[0]);
      SingleWorkerInsertsInOrder(Apply(s, steps[0]), steps[1..]);
    }
  }

  // ---- Close terminates -------------------------------------------------------------------

  function Weight(w: Worker): nat {
    match w
    case Waiting => 2
    case Inserting(_) => 3
    case Draining => 1
    case DrainInserting(_) => 2
    case Returned => 0
  }

  function Weights(ws: seq<Worker>): nat {
    if ws == [] then 0 else Weight(ws[0]) + Weights(ws[1..])
  }

  function Remaining(s: Logger): nat {
    2 * |s.queue| + Weights(s.workers) + |s.overflow|
  }

  predicate IsLogCall(step: Step) {
    step.Enqueue? || step.Handoff? || step.Overflow?
  }

  lemma {:induction false} WeightsAfterUpdate(ws: seq<Worker>, w: nat, x: Worker)
    requires w < |ws|
    ensures Weights(ws[w := x]) + Weight(ws[w]) == Weights(ws) + Weight(x)
  {
    if w == 0 {
      assert ws[0 := x][1..] == ws[1..];
    } else {
      assert ws[w := x][1..] == ws[1..][w - 1 := x];
      WeightsAfterUpdate(ws[1..], w - 1, x);
    }
  }

  /** Worker w is not blocked. */
  predicate CanMove(s: Logger, w: nat) {
    || Enabled(s, Receive(w)) || Enabled(s, Insert(w)) || Enabled(s, SeeClosed(w))
    || Enabled(s, DrainReceive(w)) || Enabled(s, DrainReturn(w))
  }

  /** After close and with no further LogAsync call, some worker step is enabled until Close
      returns, and every step uses up some of a bounded amount of work. */
  lemma CloseMakesProgress(s: Logger, step: Step)
    requires Inv(s) && s.closed
    ensures CloseReturned(s) || exists w: nat :: CanMove(s, w)
    ensures Enabled(s, step) && !IsLogCall(step) ==> Remaining(Apply(s, step)) < Remaining(s)
  {
    if !CloseReturned(s) {
      var w :| 0 <= w < |s.workers| && !s.workers[w].Returned?;
      assert CanMove(s, w);
    }
    if Enabled(s, step) && !IsLogCall(step) && !step.OverflowInsert? {
      WeightsAfterUpdate(s.workers, step.w, Apply(s, step).workers[step.w]);
    }
  }

  /** A schedule without a LogAsync call. */
  predicate Quiet(steps: seq<Step>) {
    forall i :: 0 <= i < |steps| ==> !IsLogCall(steps[i])
  }

  lemma {:induction false} QuietRunWinds(s: Logger, steps: seq<Step>)
    requires Inv(s) && s.closed && Runs(s, steps) && Quiet(steps)
    ensures var t := After(s, steps);
      && Inv(t) && t.closed && t.calls == s.calls && t.accepted == s.accepted && t.beforeClose == s.beforeClose
      && |t.workers| == |s.workers| && t.overflow <= s.overflow && (s.workers == [] ==> t.queue == s.queue)
      && |steps| + Remaining(t) <= Remaining(s)
    decreases |steps|
  {
    if steps != [] {
      StepKeepsInv(s, steps[0]);
      CloseMakesProgress(s, steps[0]);
      QuietRunWinds(Apply(s, steps[0]), steps[1..]);
    }
  }

  /** The step an unblocked worker takes. */
  function Move(s: Logger, w: nat): Step
    requires CanMove(s, w)
  {
    if Enabled(s, Receive(w)) then Receive(w)
    else if Enabled(s, Insert(w)) then Insert(w)
    else if Enabled(s, SeeClosed(w)) then SeeClosed(w)
    else if Enabled(s, DrainReceive(w)) then DrainReceive(w)
    else DrainReturn(w)
  }

  /** Left to themselves the workers bring Close to its return, without any overflow goroutine moving. */
  lemma {:induction false} WorkersReturn(s: Logger) returns (steps: seq<Step>)
    requires Inv(s) && s.closed
    ensures Runs(s, steps) && Quiet(steps)
    ensures CloseReturned(After(s, steps)) && After(s, steps).overflow == s.overflow
    decreases Remaining(s)
  {
    if CloseReturned(s) {
      steps := [];
    } else {
      CloseMakesProgress(s, CloseChan);
      var w: nat :| CanMove(s, w);
      var step := Move(s, w);
      CloseMakesProgress(s, step);
      StepKeepsInv(s, step);
      var rest := WorkersReturn(Apply(s, step));
      RunCons(s, step, rest);
      steps := [step] + rest;
    }
  }

  /** Close returns: after close a schedule without log calls is never longer than the work remaining, and
      whatever it has done so far it can be continued to the return. */
  lemma CloseReturns(s: Logger, steps: seq<Step>)
    requires Inv(s) && s.closed && Runs(s, steps) && Quiet(steps)
    ensures |steps| <= Remaining(s)
    ensures exists more: seq<Step> ::
      Runs(After(s, steps), more) && Quiet(more) && CloseReturned(After(After(s, steps), more))
  {
    QuietRunWinds(s, steps);
    var more := WorkersReturn(After(s, steps));
  }

  /** A quiet schedule that brings Close to its return has attempted every event. */
  ghost predicate FlushesBy(s: Logger, steps: seq<Step>) {
    Runs(s, steps) && Quiet(steps) && CloseReturned(After(s, steps)) ==> AllAttempted(After(s, steps))
  }

  /** Close with no log call after it flushes every event, whatever the schedule, exactly when at the call no
      overflow goroutine is in flight and there is a worker or nothing queued. */
  lemma CloseFlushesAllIff(s: Logger)
    requires Inv(s) && !s.closed
    ensures (forall steps :: FlushesBy(Apply(s, CloseChan), steps))
      <==> s.overflow == multiset{} && (s.workers != [] || s.queue == [])
  {
    var c := Apply(s, CloseChan);
    StepKeepsInv(s, CloseChan);
    if s.overflow == multiset{} && (s.workers != [] || s.queue == []) {
      forall steps ensures FlushesBy(c, steps) {
        if Runs(c, steps) && Quiet(steps) && CloseReturned(After(c, steps)) {
          QuietRunWinds(c, steps);
          AttemptedAtReturn(After(c, steps));
          assert s.workers != [] ==> After(c, steps).workers[0].Returned?;
        }
      }
    } else {
      var steps := WorkersReturn(c);
      QuietRunWinds(c, steps);
      AttemptedAtReturn(After(c, steps));
      assert !FlushesBy(c, steps);
    }
  }

  // ---- what Close does not promise --------------------------------------------------------

  /** An overflow insert can outlive Close: the wait group does not cover its goroutine. */
  lemma OverflowOutlivesClose()
    ensures exists steps: seq<Step> ::
      && Runs(Init(0, 1), steps) && CloseReturned(After(Init(0, 1), steps))
      && After(Init(0, 1), steps).calls == 1 && Attempts(After(Init(0, 1), steps), 0) == 0
  {
    var s0 := Init(0, 1);
    var s1 := Apply(s0, Overflow);
    var s2 := Apply(s1, CloseChan);
    var s3 := Apply(s2, SeeClosed(0));
    var s4 := Apply(s3, DrainReturn(0));
    UnfoldRun4(s0, s1, s2, s3, Overflow, CloseChan, SeeClosed(0), DrainReturn(0));
  }

  /** A log call always goes somewhere at once: with room in the channel the event is accepted, and only into a full
      one does it overflow. */
  lemma LogCallLaw(s: Logger, step: Step)
    requires Inv(s) && Enabled(s, step) && IsLogCall(step)
    ensures var t := Apply(s, step); var e := s.calls;
      && t.calls == s.calls + 1
      && (step == Overflow <==> |s.queue| == s.capacity && e in t.overflow)
      && (step != Overflow <==> e in t.accepted)
      && (step == Enqueue ==> t.queue == s.queue + [e] && |t.queue| <= s.capacity)
  {
    assert Places(s, s.calls) == 0;
  }

  /** A log call never blocks: it queues while there is room and overflows when there is none, closed or not. */
  lemma LoggingNeverBlocks(s: Logger)
    requires Inv(s)
    ensures Enabled(s, Enqueue) <==> |s.queue| < s.capacity
    ensures Enabled(s, Overflow) <==> |s.queue| == s.capacity
  {
  }

  /** So in every run an event logged while the channel had room is accepted for good: it is never left to an overflow
      goroutine, before or after. */
  lemma RoomMeansAccepted(capacity: nat, workers: nat, early: seq<Step>, call: Step, late: seq<Step>)
    requires Runs(Init(capacity, workers), early) && Enabled(After(Init(capacity, workers), early), call)
    requires IsLogCall(call) && |After(Init(capacity, workers), early).queue| < capacity
    requires Runs(Apply(After(Init(capacity, workers), early), call), late)
    ensures var s := After(Init(capacity, workers), early); var t := After(Apply(s, call), late);
      s.calls in t.accepted && s.calls !in t.overflow && s.calls !in t.overflowInserted
  {
    var s := After(Init(capacity, workers), early);
    InitInv(capacity, workers);
    RunKeepsInv(Init(capacity, workers), early);
    HistoryGrows(Init(capacity, workers), early);
    LogCallLaw(s, call);
    StepKeepsInv(s, call);
    RunKeepsInv(Apply(s, call), late);
    HistoryGrows(Apply(s, call), late);
    var i :| 0 <= i < |Apply(s, call).accepted| && Apply(s, call).accepted[i] == s.calls;
    assert After(Apply(s, call), late).accepted[i] == s.calls;
  }

  /** Before and after the close alike, a worker that waits for events can take the oldest one queued and insert it. */
  lemma WaitingWorkerServes(s: Logger, w: nat)
    requires w < |s.workers| && s.workers[w] == Waiting && s.queue != []
    ensures Runs(s, [Receive(w)] + ([Insert(w)] + []))
    ensures var t := After(s, [Receive(w)] + ([Insert(w)] + []));
      && t.inserted == s.inserted + [s.queue[0]] && t.queue == s.queue[1..] && t.workers == s.workers
      && t.overflow == s.overflow && t.closed == s.closed
  {
    var u := Apply(s, Receive(w));
    RunCons(u, Insert(w), []);
    RunCons(s, Receive(w), [Insert(w)] + []);
    assert Apply(u, Insert(w)).workers == s.workers;
  }

  /** An overflow goroutine can insert its event at any time. */
  lemma OverflowServes(s: Logger, e: nat)
    requires e in s.overflow
    ensures Enabled(s, OverflowInsert(e)) && Attempts(Apply(s, OverflowInsert(e)), e) == Attempts(s, e) + 1
    ensures Apply(s, OverflowInsert(e)).overflow == s.overflow - multiset{e}
  {
  }

  /** An event logged after Close returned is queued if there is room and never attempted, whatever follows. */
  lemma LateEventIsStranded(s: Logger, more: seq<Step>)
    requires Inv(s) && CloseReturned(s) && Enabled(s, Enqueue) && Runs(Apply(s, Enqueue), more)
    ensures Attempts(After(Apply(s, Enqueue), more), s.calls) == 0
  {
    assert Places(s, s.calls) == 0;
    StrandedForever(Apply(s, Enqueue), s.calls, more);
  }

  /** With no workers configured Close returns at once and leaves the queue untouched. */
  lemma NoWorkersDrainsNothing()
    ensures exists steps: seq<Step> ::
      && Runs(Init(1, 0), steps) && CloseReturned(After(Init(1, 0), steps))
      && 0 in After(Init(1, 0), steps[..1]).accepted && Attempts(After(Init(1, 0), steps), 0) == 0
  {
    var steps := [Enqueue, CloseChan];
    var s1 := Apply(Init(1, 0), Enqueue);
    assert steps[1..] == [CloseChan] && [CloseChan][1..] == [] && steps[..1] == [Enqueue] && [Enqueue][1..] == [];
    assert Runs(s1, [CloseChan]) && After(s1, [CloseChan]) == Apply(s1, CloseChan);
    assert Runs(Init(1, 0), steps) && After(Init(1, 0), steps) == After(s1, [CloseChan]);
    assert Runs(Init(1, 0), steps[..1]) && After(Init(1, 0), steps[..1]) == s1;
  }

  lemma {:induction false} StrandedForever(s: Logger, e: nat, more: seq<Step>)
    requires CloseReturned(s) && e < s.calls && Runs(s, more)
    requires e !in s.inserted && e !in s.overflow && e !in s.overflowInserted
    ensures Attempts(After(s, more), e) == 0
    decreases |more|
  {
    if more != [] {
      StrandedForever(Apply(s, more[0]), e, more[1..]);
    }
  }

  lemma RunCons(s: Logger, step: Step, rest: seq<Step>)
    requires Enabled(s, step) && Runs(Apply(s, step), rest)
    ensures Runs(s, [step] + rest) && After(s, [step] + rest) == After(Apply(s, step), rest)
  {
    assert ([step] + rest)[1..] == rest && ([step] + rest)[0] == step;
  }

  lemma UnfoldRun4(s: Logger, s1: Logger, s2: Logger, s3: Logger, a: Step, b: Step, c: Step, d: Step)
    requires Enabled(s, a) && s1 == Apply(s, a) && Enabled(s1, b) && s2 == Apply(s1, b)
    requires Enabled(s2, c) && s3 == Apply(s2, c) && Enabled(s3, d)
    ensures Runs(s, [a, b, c, d]) && After(s, [a, b, c, d]) == Apply(s3, d)
  {
    RunCons(s3, d, []);
    RunCons(s2, c, [d]);
    RunCons(s1, b, [c, d]);
    RunCons(s, a, [b, c, d]);
    assert [d] + [] == [d] && [c] + [d] == [c, d] && [b] + [c, d] == [b, c, d] && [a] + [b, c, d] == [a, b, c, d];
  }
}
