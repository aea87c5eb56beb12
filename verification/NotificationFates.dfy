/** What can still become of a notification: whether any continuation attempts its delivery, brings its record
    back, or clears what is left of it in the indexes; each told as the exact states in which it can, over every
    continuation by single commands. */
module NotificationFates {
  import opened Wrappers
  import opened NotificationSpec
  import opened NotificationRuns
  import opened NotificationIndexes

  /** A save of the id has still to write its record. */
  predicate Saving(s: State, id: string) {
    exists j :: j in s.jobs && j.id == id && j.work.Put? && j.stage == 0
  }

  /** Its record is there, or a handler holds a copy to write. */
  predicate Recordable(s: State, id: string) {
    id in s.store.records || id in Ids(s.readers) || Saving(s, id)
  }

  /** The pass has it listed, or can come to list it. */
  predicate Listable(s: State, id: string) {
    id in s.listed || id in s.store.pending || Announced(s, id)
  }

  predicate Deliverable(s: State, id: string) {
    id in Ids(s.batch) || (Listable(s, id) && Recordable(s, id))
  }

  // ---- nothing new comes of what is not there ---------------------------------------------

  lemma SavesCome(s: State, step: Step, id: string)
    requires Inv(s) && Enabled(s, step) && id in s.store.sent && Saving(Apply(s, step), id)
    ensures Saving(s, id) || id in Ids(s.readers) || (s.flight.Some? && s.flight.value.id == id)
  {
    match step
    case Run(j, at) => RunJobs(s, j, at);
    case SaveRead(i, _) => assert s.readers[i].id == Ids(s.readers)[i];
    case _ =>
  }

  lemma ReadersCome(s: State, step: Step, id: string)
    requires Inv(s) && Enabled(s, step) && id in Ids(Apply(s, step).readers)
    ensures id in Ids(s.readers) || id in s.store.records
  {
    var readers := Apply(s, step).readers;
    var k :| 0 <= k < |readers| && Ids(readers)[k] == id;
    match step
    case ReadCopy(_) => assert k < |s.readers| ==> Ids(s.readers)[k] == id;
    case SaveRead(i, _) => assert Ids(s.readers)[if k < i then k else k + 1] == id;
    case _ =>
  }

  lemma BatchComes(s: State, step: Step, id: string)
    requires Inv(s) && Enabled(s, step) && id in Ids(Apply(s, step).batch)
    ensures id in Ids(s.batch) || (id in s.listed && id in s.store.records)
  {
    var t := Apply(s, step);
    match step
    case Fetch =>
      assert Ids(t.batch) == Ids(s.batch) + if s.listed[0] in s.store.records then [s.listed[0]] else [];
    case DeliverNext(_, _) => assert Ids(s.batch) == [s.batch[0].id] + Ids(t.batch);
    case _ =>
  }

  lemma CopiesCome(s: State, step: Step, id: string)
    requires Inv(s) && Enabled(s, step)
    ensures id in Ids(Apply(s, step).readers) ==> id in Ids(s.readers) || id in s.store.records
    ensures id in Ids(Apply(s, step).batch) ==> id in Ids(s.batch) || (id in s.listed && id in s.store.records)
  {
    if id in Ids(Apply(s, step).readers) { ReadersCome(s, step, id); }
    if id in Ids(Apply(s, step).batch) { BatchComes(s, step, id); }
  }

  lemma StaysUnrecordable(s: State, step: Step, id: string)
    requires Inv(s) && Enabled(s, step) && id in s.store.sent && !Recordable(s, id)
    requires !(s.flight.Some? && s.flight.value.id == id)
    ensures !Recordable(Apply(s, step), id)
  {
    CopiesCome(s, step, id);
    if Saving(Apply(s, step), id) {
      SavesCome(s, step, id);
    }
    if step.Run? {
      assert s.jobs[step.j] in s.jobs;
      CommandWrites(s.store, s.jobs[step.j], step.at);
    }
  }

  lemma StaysUnlistable(s: State, step: Step, id: string)
    requires Inv(s) && Enabled(s, step) && id in s.store.sent && !Listable(s, id)
    ensures !Listable(Apply(s, step), id)
  {
    match step
    case Run(j, at) =>
      RunJobs(s, j, at);
      CommandWrites(s.store, s.jobs[j], at);
    case ListDue(order, at) => assert id !in Due(s.store, at);
    case _ =>
  }

  lemma OnlyTheHeadIsTried(s: State, step: Step, id: string)
    requires Inv(s) && Enabled(s, step) && id in s.store.sent && id !in Ids(s.batch)
    ensures Tries(Apply(s, step).store, id) == Tries(s.store, id)
  {
    match step
    case Run(j, at) => CommandWrites(s.store, s.jobs[j], at);
    case DeliverNext(_, _) => assert s.batch[0].id == Ids(s.batch)[0];
    case _ =>
  }

  lemma StaysUndeliverable(s: State, step: Step, id: string)
    requires Inv(s) && Enabled(s, step) && id in s.store.sent && Tries(s.store, id) == [] && !Deliverable(s, id)
    ensures !Deliverable(Apply(s, step), id) && Tries(Apply(s, step).store, id) == []
  {
    OnlyTheHeadIsTried(s, step, id);
    CopiesCome(s, step, id);
    if !Recordable(s, id) {
      StaysUnrecordable(s, step, id);
    } else {
      StaysUnlistable(s, step, id);
    }
  }

  ghost predicate StaysUntried(s: State, steps: seq<Step>, id: string) {
    Runs(s, steps) ==> Tries(After(s, steps).store, id) == Tries(s.store, id)
  }

  lemma {:induction false} UndeliverableStaysUntried(s: State, steps: seq<Step>, id: string)
    requires Inv(s) && id in s.store.sent && Tries(s.store, id) == [] && !Deliverable(s, id)
    ensures StaysUntried(s, steps, id)
    decreases |steps|
  {
    if steps != [] && Runs(s, steps) {
      StepKeepsInv(s, steps[0]);
      StepGrows(s, steps[0]);
      StaysUndeliverable(s, steps[0], id);
      UndeliverableStaysUntried(Apply(s, steps[0]), steps[1..], id);
    }
  }

  lemma {:induction false} RunGrows(s: State, steps: seq<Step>)
    requires Inv(s) && Runs(s, steps)
    ensures Grows(s.store, After(s, steps).store)
    decreases |steps|
  {
    if steps != [] {
      StepKeepsInv(s, steps[0]);
      StepGrows(s, steps[0]);
      RunGrows(Apply(s, steps[0]), steps[1..]);
    }
  }

  // ---- the run that delivers --------------------------------------------------------------

  /** The pass is where it was, and the store has lost nothing but what its saves replace. */
  ghost predicate OnlyGained(s: State, t: State, id: string) {
    && t.listed == s.listed && t.batch == s.batch && t.flight == s.flight && t.store.tries == s.store.tries
    && (id in s.store.records ==> id in t.store.records) && (id in s.store.pending ==> id in t.store.pending)
    && (Announced(s, id) ==> Announced(t, id) || id in t.store.pending)
  }

  lemma JobIndex(s: State, k: Job) returns (j: nat)
    requires k in s.jobs && Live(k)
    ensures j < |s.jobs| && s.jobs[j] == k && Enabled(s, Run(j, 0))
  {
    j :| 0 <= j < |s.jobs| && s.jobs[j] == k;
  }

  lemma FirstCommand(s: State, id: string) returns (steps: seq<Step>)
    requires Saving(s, id)
    ensures Runs(s, steps) && OnlyGained(s, After(s, steps), id) && id in After(s, steps).store.records
  {
    var k :| k in s.jobs && k.id == id && k.work.Put? && k.stage == 0;
    var j := JobIndex(s, k);
    RunJobs(s, j, 0);
    RunCons(s, Run(j, 0), []);
    steps := [Run(j, 0)] + [];
  }

  /** A copy somebody holds brings the record back. */
  lemma RecordReturns(s: State, id: string) returns (steps: seq<Step>)
    requires Inv(s) && Recordable(s, id)
    ensures Runs(s, steps) && OnlyGained(s, After(s, steps), id) && id in After(s, steps).store.records
  {
    if id in s.store.records {
      steps := [];
    } else if Saving(s, id) {
      steps := FirstCommand(s, id);
    } else {
      var i :| 0 <= i < |s.readers| && Ids(s.readers)[i] == id;
      var t := Apply(s, SaveRead(i, 0));
      assert t.jobs[|s.jobs|] in t.jobs;
      forall j | j in s.jobs ensures j in t.jobs {}
      var rest := FirstCommand(t, id);
      RunCons(s, SaveRead(i, 0), rest);
      steps := [SaveRead(i, 0)] + rest;
    }
  }

  /** The send that announces the id gets to its last command. */
  lemma {:induction false} AnnouncementArrives(s: State, j: nat, id: string) returns (steps: seq<Step>)
    requires j < |s.jobs| && s.jobs[j].id == id && Live(s.jobs[j]) && Announces(s.jobs[j])
    ensures Runs(s, steps) && OnlyGained(s, After(s, steps), id) && id in After(s, steps).store.pending
    decreases 3 - s.jobs[j].stage
  {
    var t := Apply(s, Run(j, 0));
    if s.jobs[j].stage == 2 {
      RunCons(s, Run(j, 0), []);
      steps := [Run(j, 0)] + [];
    } else {
      var rest := AnnouncementArrives(t, j, id);
      RunCons(s, Run(j, 0), rest);
      steps := [Run(j, 0)] + rest;
    }
  }

  /** Commands the pass has still to issue. */
  function OwnLeft(jobs: seq<Job>): nat {
    if jobs == [] then 0 else OwnLeft(jobs[1..]) + if jobs[0].own && Live(jobs[0]) then 3 - jobs[0].stage else 0
  }

  lemma {:induction false} OwnRunLeavesLess(jobs: seq<Job>, j: nat)
    requires j < |jobs| && Live(jobs[j]) && jobs[j].own
    ensures OwnLeft(jobs[j := jobs[j].(stage := jobs[j].stage + 1)]) < OwnLeft(jobs)
  {
    var done := jobs[j].(stage := jobs[j].stage + 1);
    if j == 0 {
      assert jobs[0 := done][1..] == jobs[1..];
    } else {
      assert jobs[j := done][1..] == jobs[1..][j - 1 := done];
      OwnRunLeavesLess(jobs[1..], j - 1);
    }
  }

  lemma {:induction false} OwnLeftAppend(jobs: seq<Job>, j: Job)
    ensures OwnLeft(jobs + [j]) == OwnLeft(jobs) + if j.own && Live(j) then 3 - j.stage else 0
  {
    if jobs == [] {
      assert jobs + [j] == [j] && [j][1..] == [];
    } else {
      assert (jobs + [j])[1..] == jobs[1..] + [j];
      OwnLeftAppend(jobs[1..], j);
    }
  }

  function PassLeft(s: State): nat {
    6 * |s.listed| + 5 * |s.batch| + (if s.flight.Some? then 4 else 0) + OwnLeft(s.jobs)
  }

  predicate OfWorker(s: State, step: Step) {
    match step
    case SaveNext => true
    case Fetch => true
    case DeliverNext(_, _) => true
    case Run(j, _) => j < |s.jobs| && s.jobs[j].own
    case _ => false
  }

  /** The worker's next step, while it is not resting. */
  lemma WorkerMoves(s: State) returns (step: Step)
    requires Inv(s) && !Resting(s)
    ensures Enabled(s, step) && OfWorker(s, step) && PassLeft(Apply(s, step)) < PassLeft(s)
  {
    if s.flight.Some? {
      step := SaveNext;
      OwnLeftAppend(s.jobs, Job(s.flight.value.id, Put(s.flight.value.n), 0, true));
    } else if k :| k in s.jobs && k.own && Live(k) {
      var j := JobIndex(s, k);
      step := Run(j, 0);
      OwnRunLeavesLess(s.jobs, j);
    } else if s.listed != [] {
      step := Fetch;
    } else {
      assert Ids(s.batch) != [];
      step := DeliverNext(true, s.since);
    }
  }

  /** The worker leaves an id it has not attempted as it is. */
  lemma WorkerSpares(s: State, step: Step, id: string)
    requires Inv(s) && Enabled(s, step) && OfWorker(s, step) && Tries(s.store, id) == []
    ensures var t := Apply(s, step);
      (id in s.store.records ==> id in t.store.records) && (id in s.store.pending ==> id in t.store.pending)
  {
    if step.Run? {
      assert s.jobs[step.j] in s.jobs && JobOk(s.store, s.jobs[step.j]);
    }
  }

  /** The pass has the id's record, or will find it. */
  predicate InHand(s: State, id: string) {
    id in Ids(s.batch) || (id in s.listed && id in s.store.records)
  }

  lemma WorkerKeepsInHand(s: State, step: Step, id: string)
    requires Inv(s) && Enabled(s, step) && OfWorker(s, step) && InHand(s, id)
    ensures var t := Apply(s, step); InHand(t, id) || (t.flight.Some? && t.flight.value.id == id)
  {
    var t := Apply(s, step);
    assert id in Outstanding(s) && DueSince(s, id);
    WorkerSpares(s, step, id);
    match step
    case Fetch =>
      assert Ids(t.batch) == Ids(s.batch) + if s.listed[0] in s.store.records then [s.listed[0]] else [];
    case DeliverNext(_, _) => assert Ids(s.batch) == [s.batch[0].id] + Ids(t.batch);
    case _ =>
  }

  /** Left to itself the worker gets to deliver it. */
  lemma {:induction false} WorkerDelivers(s: State, id: string) returns (steps: seq<Step>)
    requires Inv(s) && InHand(s, id)
    ensures Runs(s, steps)
    ensures After(s, steps).flight.Some? && After(s, steps).flight.value.id == id
    decreases PassLeft(s)
  {
    assert id in Outstanding(s);
    var step := WorkerMoves(s);
    var t := Apply(s, step);
    WorkerKeepsInHand(s, step, id);
    if InHand(t, id) {
      StepKeepsInv(s, step);
      var rest := WorkerDelivers(t, id);
      RunCons(s, step, rest);
      steps := [step] + rest;
    } else {
      RunCons(s, step, []);
      steps := [step] + [];
    }
  }

  /** Left to itself the worker finishes the pass. */
  lemma {:induction false} WorkerRests(s: State, id: string) returns (steps: seq<Step>)
    requires Inv(s) && id in s.store.sent && id !in Outstanding(s) && Tries(s.store, id) == []
    ensures Runs(s, steps) && Resting(After(s, steps)) && Tries(After(s, steps).store, id) == []
    ensures id in s.store.records ==> id in After(s, steps).store.records
    ensures id in s.store.pending ==> id in After(s, steps).store.pending
    decreases PassLeft(s)
  {
    if Resting(s) {
      steps := [];
    } else {
      var step := WorkerMoves(s);
      StepKeepsInv(s, step);
      StepGrows(s, step);
      WorkerSpares(s, step, id);
      StepPassesOver(s, step, id);
      var rest := WorkerRests(Apply(s, step), id);
      RunCons(s, step, rest);
      steps := [step] + rest;
    }
  }

  lemma {:induction false} InSomeOrder(ids: set<string>) returns (order: seq<string>)
    ensures Distinct(order) && forall id :: id in order <==> id in ids
  {
    if ids == {} {
      order := [];
    } else {
      var id :| id in ids;
      var rest := InSomeOrder(ids - {id});
      order := [id] + rest;
    }
  }

  /** A pending id with a record is taken up by the next pass. */
  lemma NextPassDelivers(s: State, id: string) returns (steps: seq<Step>)
    requires Inv(s) && Resting(s) && id in s.store.pending && id in s.store.records
    ensures Runs(s, steps)
    ensures After(s, steps).flight.Some? && After(s, steps).flight.value.id == id
  {
    var at := s.store.pending[id] * 1_000_000_000;
    var order := InSomeOrder(Due(s.store, at));
    assert id in Due(s.store, at);
    assert Ids(s.batch) == [];
    var step := ListDue(order, at);
    StepKeepsInv(s, step);
    var rest := WorkerDelivers(Apply(s, step), id);
    RunCons(s, step, rest);
    steps := [step] + rest;
  }

  // ---- main results -----------------------------------------------------------------------

  lemma ListableIsDelivered(s: State, id: string) returns (steps: seq<Step>)
    requires Inv(s) && Tries(s.store, id) == [] && id in s.store.records
    requires id !in Outstanding(s) && (id in s.store.pending || Announced(s, id))
    ensures Runs(s, steps) && Tries(After(s, steps).store, id) != []
  {
    var a: seq<Step> := [];
    if id !in s.store.pending {
      var k :| k in s.jobs && k.id == id && Live(k) && Announces(k);
      var j := JobIndex(s, k);
      a := AnnouncementArrives(s, j, id);
    }
    RunKeepsInv(s, a);
    var t := After(s, a);
    assert CopyOk(s.store, id, s.store.records[id]) && CopyOk(t.store, id, t.store.records[id]);
    var b := WorkerRests(t, id);
    RunKeepsInv(t, b);
    var c := NextPassDelivers(After(t, b), id);
    RunKeepsInv(After(t, b), c);
    RunAppend(t, b, c);
    RunAppend(s, a, b + c);
    steps := a + (b + c);
  }

  lemma DeliverableIsTried(s: State, id: string) returns (steps: seq<Step>)
    requires Inv(s) && Tries(s.store, id) == [] && Deliverable(s, id)
    ensures Runs(s, steps) && Tries(After(s, steps).store, id) != []
  {
    if id in Ids(s.batch) {
      steps := WorkerDelivers(s, id);
      RunKeepsInv(s, steps);
    } else {
      var a := RecordReturns(s, id);
      RunKeepsInv(s, a);
      var t := After(s, a);
      var b;
      if id in s.listed {
        b := WorkerDelivers(t, id);
        RunKeepsInv(t, b);
      } else {
        b := ListableIsDelivered(t, id);
      }
      RunAppend(s, a, b);
      steps := a + b;
    }
  }

  lemma TriedStaysSo(s: State, steps: seq<Step>, id: string)
    requires Inv(s) && Tries(s.store, id) != []
    ensures StaysUntried(s, steps, id)
  {
    if Runs(s, steps) {
      RunGrows(s, steps);
      RunKeepsInv(s, steps);
      assert TriesOk(s.store, id) && TriesOk(After(s, steps).store, id);
    }
  }

  /** No continuation attempts a notification (again) exactly when it has been attempted, so a failed one is never
      retried, or when the pass has not read it and either nothing can list it or nothing can supply its record. */
  lemma AttemptedNoMoreIff(s: State, id: string)
    requires Inv(s) && id in s.store.sent
    ensures (forall steps :: StaysUntried(s, steps, id)) <==> Tries(s.store, id) != [] || !Deliverable(s, id)
  {
    if Tries(s.store, id) == [] && Deliverable(s, id) {
      var steps := DeliverableIsTried(s, id);
      assert !StaysUntried(s, steps, id);
    } else {
      forall steps ensures StaysUntried(s, steps, id) {
        if Tries(s.store, id) != [] {
          TriedStaysSo(s, steps, id);
        } else {
          UndeliverableStaysUntried(s, steps, id);
        }
      }
    }
  }

  /** Somebody holds a copy of the record to save. */
  predicate CopyHeld(s: State, id: string) {
    id in Ids(s.batch) || id in Ids(s.readers) || Saving(s, id) || (s.flight.Some? && s.flight.value.id == id)
  }

  predicate Gone(s: State, id: string) {
    id in s.store.sent && id !in s.store.records && !CopyHeld(s, id)
  }

  lemma StepStaysGone(s: State, step: Step, id: string)
    requires Inv(s) && Enabled(s, step) && Gone(s, id)
    ensures Gone(Apply(s, step), id) && !Starts(s, step, id)
  {
    StepGrows(s, step);
    CopiesCome(s, step, id);
    StaysUnrecordable(s, step, id);
    match step
    case SaveRead(i, _) => assert s.readers[i].id == Ids(s.readers)[i];
    case DeliverNext(_, _) => assert s.batch[0].id == Ids(s.batch)[0];
    case _ =>
  }

  ghost predicate StaysGone(s: State, steps: seq<Step>, id: string) {
    Runs(s, steps) ==> id !in After(s, steps).store.records
  }

  lemma {:induction false} GoneStaysGone(s: State, steps: seq<Step>, id: string)
    requires Inv(s) && Gone(s, id)
    ensures StaysGone(s, steps, id)
    decreases |steps|
  {
    if steps != [] && Runs(s, steps) {
      StepKeepsInv(s, steps[0]);
      StepStaysGone(s, steps[0], id);
      GoneStaysGone(Apply(s, steps[0]), steps[1..], id);
    }
  }

  lemma FlightLands(s: State, id: string) returns (steps: seq<Step>)
    requires Inv(s) && s.flight.Some? && s.flight.value.id == id
    ensures Runs(s, steps) && id in After(s, steps).store.records
  {
    var t := Apply(s, SaveNext);
    assert t.jobs[|s.jobs|] in t.jobs;
    var rest := FirstCommand(t, id);
    RunCons(s, SaveNext, rest);
    steps := [SaveNext] + rest;
  }

  lemma HeldCopyReturns(s: State, id: string) returns (steps: seq<Step>)
    requires Inv(s) && CopyHeld(s, id)
    ensures Runs(s, steps) && id in After(s, steps).store.records
  {
    if s.flight.Some? && s.flight.value.id == id {
      steps := FlightLands(s, id);
    } else if id in Ids(s.batch) {
      var a := WorkerDelivers(s, id);
      RunKeepsInv(s, a);
      var b := FlightLands(After(s, a), id);
      RunAppend(s, a, b);
      steps := a + b;
    } else {
      steps := RecordReturns(s, id);
    }
  }

  /** A deleted notification stays deleted in every continuation exactly when neither the pass nor a handler holds
      a copy of it to save. */
  lemma DeletedForeverIff(s: State, id: string)
    requires Inv(s) && id in s.store.sent && id !in s.store.records
    ensures (forall steps :: StaysGone(s, steps, id)) <==> !CopyHeld(s, id)
  {
    if CopyHeld(s, id) {
      var steps := HeldCopyReturns(s, id);
      assert !StaysGone(s, steps, id);
    } else {
      forall steps ensures StaysGone(s, steps, id) {
        GoneStaysGone(s, steps, id);
      }
    }
  }

  // ---- leftovers in the indexes -----------------------------------------------------------

  ghost predicate StaysPending(s: State, steps: seq<Step>, id: string) {
    Runs(s, steps) ==> id in After(s, steps).store.pending && id !in After(s, steps).store.records
  }

  ghost predicate StaysListed(s: State, steps: seq<Step>, id: string) {
    Runs(s, steps) ==> Listed(After(s, steps).store, id) && id !in After(s, steps).store.records
  }

  lemma LeftoverRun(s: State, j: nat, at: int, id: string)
    requires Inv(s) && Enabled(s, Run(j, at)) && !(s.jobs[j].id == id && s.jobs[j].work.Put? && s.jobs[j].stage == 0)
    ensures var t := Apply(s, Run(j, at)).store;
      && (id in s.store.pending ==> id in t.pending || Retiring(s, id))
      && (Listed(s.store, id) ==> Listed(t, id) || Unlisting(s, id))
  {
    assert s.jobs[j] in s.jobs;
  }

  lemma LeftoverStep(s: State, step: Step, id: string)
    requires Inv(s) && Enabled(s, step) && Gone(s, id)
    ensures var t := Apply(s, step);
      && Gone(t, id)
      && (!Retiring(s, id) ==> !Retiring(t, id) && (id in s.store.pending ==> id in t.store.pending))
      && (!Unlisting(s, id) ==> !Unlisting(t, id) && (Listed(s.store, id) ==> Listed(t.store, id)))
  {
    StepStaysGone(s, step, id);
    if step.Run? {
      assert s.jobs[step.j] in s.jobs;
      RunShrinks(s, step.j, step.at, id);
      LeftoverRun(s, step.j, step.at, id);
    } else {
      var t := Apply(s, step);
      BeginOfAnother(s, step, id);
      assert Retiring(t, id) == Retiring(s, id) && Unlisting(t, id) == Unlisting(s, id);
    }
  }

  lemma {:induction false} LeftoverStays(s: State, steps: seq<Step>, id: string)
    requires Inv(s) && Gone(s, id) && Runs(s, steps)
    ensures id in s.store.pending && !Retiring(s, id) ==> StaysPending(s, steps, id)
    ensures Listed(s.store, id) && !Unlisting(s, id) ==> StaysListed(s, steps, id)
    decreases |steps|
  {
    if steps != [] {
      StepKeepsInv(s, steps[0]);
      LeftoverStep(s, steps[0], id);
      LeftoverStays(Apply(s, steps[0]), steps[1..], id);
    }
  }

  lemma {:induction false} RetirementArrives(s: State, j: nat, id: string) returns (steps: seq<Step>)
    requires j < |s.jobs| && s.jobs[j].id == id && Live(s.jobs[j]) && !Announces(s.jobs[j])
    ensures Runs(s, steps) && id !in After(s, steps).store.pending
    decreases 3 - s.jobs[j].stage
  {
    if s.jobs[j].stage == 2 {
      RunCons(s, Run(j, 0), []);
      steps := [Run(j, 0)] + [];
    } else {
      var rest := RetirementArrives(Apply(s, Run(j, 0)), j, id);
      RunCons(s, Run(j, 0), rest);
      steps := [Run(j, 0)] + rest;
    }
  }

  lemma {:induction false} UnlistingArrives(s: State, j: nat, id: string) returns (steps: seq<Step>)
    requires Inv(s) && j < |s.jobs| && s.jobs[j].id == id && s.jobs[j].work.Drop? && s.jobs[j].stage <= 1
    ensures Runs(s, steps) && !Listed(After(s, steps).store, id)
    decreases 3 - s.jobs[j].stage
  {
    var step := Run(j, 0);
    assert s.jobs[j] in s.jobs && JobOk(s.store, s.jobs[j]);
    if s.jobs[j].stage == 1 {
      RunCons(s, step, []);
      steps := [step] + [];
    } else {
      StepKeepsInv(s, step);
      var rest := UnlistingArrives(Apply(s, step), j, id);
      RunCons(s, step, rest);
      steps := [step] + rest;
    }
  }

  /** A pending id without a record stays so in every continuation, listed by every later pass and never delivered,
      exactly when nobody holds a copy of it and no delete or save part-way takes it out of the pending set. */
  lemma PendingWithoutRecordIff(s: State, id: string)
    requires Inv(s) && id in s.store.pending && id !in s.store.records
    ensures (forall steps :: StaysPending(s, steps, id)) <==> !CopyHeld(s, id) && !Retiring(s, id)
  {
    assert ScoreOk(s.store, id);
    if CopyHeld(s, id) {
      var steps := HeldCopyReturns(s, id);
      assert !StaysPending(s, steps, id);
    } else if Retiring(s, id) {
      var k :| k in s.jobs && k.id == id && Live(k) && !Announces(k);
      var j := JobIndex(s, k);
      var steps := RetirementArrives(s, j, id);
      assert !StaysPending(s, steps, id);
    } else {
      forall steps ensures StaysPending(s, steps, id) {
        if Runs(s, steps) {
          LeftoverStays(s, steps, id);
        }
      }
    }
  }

  /** A list entry without a record stays so in every continuation exactly when nobody holds a copy and no delete
      part-way takes it off the list. */
  lemma ListedWithoutRecordIff(s: State, id: string)
    requires Inv(s) && Listed(s.store, id) && id !in s.store.records
    ensures (forall steps :: StaysListed(s, steps, id)) <==> !CopyHeld(s, id) && !Unlisting(s, id)
  {
    if CopyHeld(s, id) {
      var steps := HeldCopyReturns(s, id);
      assert !StaysListed(s, steps, id);
    } else if Unlisting(s, id) {
      var k :| k in s.jobs && k.id == id && k.work.Drop? && k.stage <= 1;
      var j := JobIndex(s, k);
      var steps := UnlistingArrives(s, j, id);
      assert !StaysListed(s, steps, id);
    } else {
      forall steps ensures StaysListed(s, steps, id) {
        if Runs(s, steps) {
          LeftoverStays(s, steps, id);
        }
      }
    }
  }
}
