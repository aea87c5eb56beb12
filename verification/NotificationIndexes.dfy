/** When the user's list and the pending set end up agreeing with a notification's record, given what saves and
    deletes of it are part-way. */
module NotificationIndexes {
  import opened Wrappers
  import opened NotificationSpec
  import opened NotificationRuns

  predicate Listed(s: Store, id: string) {
    id in s.sent && (s.sent[id].user, id) in s.lists
  }

  predicate Waiting(s: Store, id: string) {
    id in s.records && Waits(s.records[id])
  }

  /** Pending exactly when its record waits, listed exactly when there is a record. */
  predicate Agrees(s: Store, id: string) {
    (id in s.pending <==> Waiting(s, id)) && (Listed(s, id) <==> id in s.records)
  }

  predicate Busy(s: State, id: string) {
    exists j :: j in s.jobs && j.id == id && Live(j)
  }

  // What the saves and deletes part-way have still to do to the id.

  predicate Writing(s: State, id: string) {
    exists j :: j in s.jobs && j.id == id && j.stage == 0
  }

  predicate Listing(s: State, id: string) {
    exists j :: j in s.jobs && j.id == id && j.work.Put? && j.stage <= 1
  }

  predicate Unlisting(s: State, id: string) {
    exists j :: j in s.jobs && j.id == id && j.work.Drop? && j.stage <= 1
  }

  predicate Retiring(s: State, id: string) {
    exists j :: j in s.jobs && j.id == id && Live(j) && !Announces(j)
  }

  /** Where the commands still to come leave the list and the pending set, when no two of them are opposed. */
  predicate EndsListed(s: State, id: string) {
    Listing(s, id) || (Listed(s.store, id) && !Unlisting(s, id))
  }

  predicate EndsPending(s: State, id: string) {
    Announced(s, id) || (id in s.store.pending && !Retiring(s, id))
  }

  /** No command still to come undoes another, and if the record is written already they lead to agreement with it. */
  predicate WillAgree(s: State, id: string) {
    && !(Listing(s, id) && Unlisting(s, id))
    && !(Announced(s, id) && Retiring(s, id))
    && (Writing(s, id) ||
        ((EndsListed(s, id) <==> id in s.store.records) && (EndsPending(s, id) <==> Waiting(s.store, id))))
  }

  /** The step begins a save or delete of the id. */
  ghost predicate Starts(s: State, step: Step, id: string)
    requires Enabled(s, step)
  {
    match step
    case SendOne(op) => op.id == id
    case DeleteOne(k) => k == id
    case SaveRead(i, _) => s.readers[i].id == id
    case SaveNext => s.flight.value.id == id
    case _ => false
  }

  ghost predicate Quiet(s: State, steps: seq<Step>, id: string)
    requires Runs(s, steps)
    decreases |steps|
  {
    steps == [] || (!Starts(s, steps[0], id) && Quiet(Apply(s, steps[0]), steps[1..], id))
  }

  // ---- one command ------------------------------------------------------------------------

  /** The other saves and deletes stay as they are. */
  lemma RunJobs(s: State, j: nat, at: int)
    requires Enabled(s, Run(j, at))
    ensures var t := Apply(s, Run(j, at)); var done := s.jobs[j].(stage := s.jobs[j].stage + 1);
      && s.jobs[j] in s.jobs && done in t.jobs
      && (forall k :: k in t.jobs ==> k in s.jobs || k == done)
      && (forall k :: k in s.jobs ==> k in t.jobs || k == s.jobs[j])
  {
    var t := Apply(s, Run(j, at));
    assert t.jobs[j] in t.jobs;
    forall k | k in s.jobs ensures k in t.jobs || k == s.jobs[j] {
      var i :| 0 <= i < |s.jobs| && s.jobs[i] == k;
      assert i != j ==> t.jobs[i] == k;
    }
  }

  /** The states differ on other ids only. */
  ghost predicate SameOn(s: State, t: State, id: string) {
    && (forall j: Job :: j.id == id ==> (j in s.jobs <==> j in t.jobs))
    && (id in t.store.records <==> id in s.store.records)
    && (id in s.store.records ==> t.store.records[id] == s.store.records[id])
    && (id in t.store.pending <==> id in s.store.pending) && (Listed(t.store, id) <==> Listed(s.store, id))
  }

  lemma SameOnAgrees(s: State, t: State, id: string)
    requires SameOn(s, t, id)
    ensures WillAgree(t, id) == WillAgree(s, id)
  {
    assert Writing(t, id) == Writing(s, id) && Listing(t, id) == Listing(s, id) && Unlisting(t, id) == Unlisting(s, id);
    assert Announced(t, id) == Announced(s, id) && Retiring(t, id) == Retiring(s, id);
  }

  lemma RunOfAnother(s: State, j: nat, at: int, id: string)
    requires Inv(s) && Enabled(s, Run(j, at)) && s.jobs[j].id != id
    ensures SameOn(s, Apply(s, Run(j, at)), id)
  {
    RunJobs(s, j, at);
    assert JobOk(s.store, s.jobs[j]);
  }

  /** What is still to be done only shrinks. */
  lemma RunShrinks(s: State, j: nat, at: int, id: string)
    requires Enabled(s, Run(j, at))
    ensures var t := Apply(s, Run(j, at));
      && (Writing(t, id) ==> Writing(s, id)) && (Listing(t, id) ==> Listing(s, id))
      && (Unlisting(t, id) ==> Unlisting(s, id)) && (Announced(t, id) ==> Announced(s, id))
      && (Retiring(t, id) ==> Retiring(s, id))
  {
    RunJobs(s, j, at);
  }

  lemma FirstCommandAgrees(s: State, j: nat, at: int, id: string)
    requires Inv(s) && Enabled(s, Run(j, at)) && s.jobs[j].id == id && s.jobs[j].stage == 0 && WillAgree(s, id)
    ensures WillAgree(Apply(s, Run(j, at)), id)
  {
    RunJobs(s, j, at);
    RunShrinks(s, j, at, id);
  }

  lemma ListCommandAgrees(s: State, j: nat, at: int, id: string)
    requires Inv(s) && Enabled(s, Run(j, at)) && s.jobs[j].id == id && s.jobs[j].stage == 1 && WillAgree(s, id)
    ensures WillAgree(Apply(s, Run(j, at)), id)
  {
    RunJobs(s, j, at);
    RunShrinks(s, j, at, id);
    assert JobOk(s.store, s.jobs[j]);
  }

  lemma PendingCommandAgrees(s: State, j: nat, at: int, id: string)
    requires Inv(s) && Enabled(s, Run(j, at)) && s.jobs[j].id == id && s.jobs[j].stage == 2 && WillAgree(s, id)
    ensures WillAgree(Apply(s, Run(j, at)), id)
  {
    RunJobs(s, j, at);
    RunShrinks(s, j, at, id);
  }

  lemma BeginOfAnother(s: State, step: Step, id: string)
    requires Inv(s) && Enabled(s, step) && !step.Run? && !Starts(s, step, id)
    ensures SameOn(s, Apply(s, step), id)
  {
    StepGrows(s, step);
  }

  /** Steps that begin nothing on the id keep it on the way to agreement. */
  lemma QuietStepAgrees(s: State, step: Step, id: string)
    requires Inv(s) && Enabled(s, step) && !Starts(s, step, id) && WillAgree(s, id)
    ensures WillAgree(Apply(s, step), id)
  {
    if step.Run? {
      if s.jobs[step.j].id != id {
        RunOfAnother(s, step.j, step.at, id);
        SameOnAgrees(s, Apply(s, step), id);
      } else if s.jobs[step.j].stage == 0 {
        FirstCommandAgrees(s, step.j, step.at, id);
      } else if s.jobs[step.j].stage == 1 {
        ListCommandAgrees(s, step.j, step.at, id);
      } else {
        PendingCommandAgrees(s, step.j, step.at, id);
      }
    } else {
      BeginOfAnother(s, step, id);
      SameOnAgrees(s, Apply(s, step), id);
    }
  }

  lemma {:induction false} QuietRunAgrees(s: State, steps: seq<Step>, id: string)
    requires Inv(s) && Runs(s, steps) && Quiet(s, steps, id) && WillAgree(s, id)
    ensures WillAgree(After(s, steps), id)
    decreases |steps|
  {
    if steps != [] {
      StepKeepsInv(s, steps[0]);
      QuietStepAgrees(s, steps[0], id);
      QuietRunAgrees(Apply(s, steps[0]), steps[1..], id);
    }
  }

  lemma FinishedAgrees(s: State, id: string)
    requires !Busy(s, id)
    ensures WillAgree(s, id) <==> Agrees(s.store, id)
  {
    assert !Writing(s, id) && !Listing(s, id) && !Unlisting(s, id) && !Announced(s, id) && !Retiring(s, id);
  }

  // ---- a disagreement can always be reached -----------------------------------------------

  lemma ListsOnceWritten(s: State, j: nat, id: string)
    requires Inv(s) && Enabled(s, Run(j, 0)) && !Writing(s, id) && Listing(s, id) && Unlisting(s, id)
    requires s.jobs[j].id == id && s.jobs[j].stage == 1 && (s.jobs[j].work.Put? <==> id in s.store.records)
    ensures !WillAgree(Apply(s, Run(j, 0)), id)
  {
    var t := Apply(s, Run(j, 0));
    RunJobs(s, j, 0);
    RunShrinks(s, j, 0, id);
    assert if id in s.store.records then Unlisting(t, id) else Listing(t, id);
  }

  /** Two opposed list commands to come, the record written: the one that suits the record goes first. */
  lemma OpposedLists(s: State, id: string) returns (j: nat)
    requires Inv(s) && !Writing(s, id) && Listing(s, id) && Unlisting(s, id)
    ensures Enabled(s, Run(j, 0)) && s.jobs[j].id == id && !WillAgree(Apply(s, Run(j, 0)), id)
  {
    var k: Job;
    if id in s.store.records {
      k :| k in s.jobs && k.id == id && k.work.Put? && k.stage <= 1;
    } else {
      k :| k in s.jobs && k.id == id && k.work.Drop? && k.stage <= 1;
    }
    j :| 0 <= j < |s.jobs| && s.jobs[j] == k;
    assert k.stage == 1;
    ListsOnceWritten(s, j, id);
  }

  /** The same of two opposed pending-set commands. */
  lemma OpposedPending(s: State, id: string) returns (j: nat)
    requires Inv(s) && Announced(s, id) && Retiring(s, id)
    requires forall k :: k in s.jobs && k.id == id && Live(k) ==> k.stage == 2
    ensures Enabled(s, Run(j, 0)) && s.jobs[j].id == id && !WillAgree(Apply(s, Run(j, 0)), id)
  {
    var k: Job;
    if Waiting(s.store, id) {
      k :| k in s.jobs && k.id == id && Live(k) && Announces(k);
    } else {
      k :| k in s.jobs && k.id == id && Live(k) && !Announces(k);
    }
    j :| 0 <= j < |s.jobs| && s.jobs[j] == k;
    RunJobs(s, j, 0);
  }

  /** Commands opposed stay opposed while an earlier one runs. */
  lemma EarlierCommand(s: State, j: nat, id: string)
    requires Enabled(s, Run(j, 0)) && s.jobs[j].id == id && !WillAgree(s, id)
    requires if Writing(s, id) then s.jobs[j].stage == 0 else Announced(s, id) && Retiring(s, id) && s.jobs[j].stage < 2
    ensures !WillAgree(Apply(s, Run(j, 0)), id)
  {
    var t := Apply(s, Run(j, 0));
    RunJobs(s, j, 0);
    assert Announced(s, id) ==> Announced(t, id);
    assert Retiring(s, id) ==> Retiring(t, id);
    assert Writing(s, id) && Listing(s, id) ==> Listing(t, id);
    assert Writing(s, id) && Unlisting(s, id) ==> Unlisting(t, id);
  }

  /** With no opposed commands left, none changes where the id is heading. */
  lemma OutcomeStays(s: State, j: nat, id: string)
    requires Inv(s) && Enabled(s, Run(j, 0)) && s.jobs[j].id == id && !WillAgree(s, id) && !Writing(s, id)
    requires !(Listing(s, id) && Unlisting(s, id)) && !(Announced(s, id) && Retiring(s, id))
    ensures !WillAgree(Apply(s, Run(j, 0)), id)
  {
    var t := Apply(s, Run(j, 0));
    assert JobOk(s.store, s.jobs[j]);
    RunJobs(s, j, 0);
    RunShrinks(s, j, 0, id);
    assert s.jobs[j].stage != 0;
    assert EndsListed(t, id) == EndsListed(s, id);
    assert EndsPending(t, id) == EndsPending(s, id);
  }

  /** A save or delete of the id part-way, the earliest there is. */
  lemma EarliestJob(s: State, id: string) returns (j: nat)
    requires Busy(s, id)
    ensures Enabled(s, Run(j, 0)) && s.jobs[j].id == id
    ensures forall k :: k in s.jobs && k.id == id && Live(k) ==> s.jobs[j].stage <= k.stage
  {
    var k: Job;
    if Writing(s, id) {
      k :| k in s.jobs && k.id == id && k.stage == 0;
    } else if i :| i in s.jobs && i.id == id && i.stage == 1 {
      k := i;
    } else {
      k :| k in s.jobs && k.id == id && Live(k);
    }
    j :| 0 <= j < |s.jobs| && s.jobs[j] == k;
  }

  /** An id that will not agree has a command to come that leaves it so. */
  lemma DisagreementStays(s: State, id: string) returns (j: nat)
    requires Inv(s) && Busy(s, id) && !WillAgree(s, id)
    ensures Enabled(s, Run(j, 0)) && s.jobs[j].id == id && !WillAgree(Apply(s, Run(j, 0)), id)
  {
    j := EarliestJob(s, id);
    if Writing(s, id) {
      EarlierCommand(s, j, id);
    } else if Listing(s, id) && Unlisting(s, id) {
      j := OpposedLists(s, id);
    } else if Announced(s, id) && Retiring(s, id) {
      if s.jobs[j].stage < 2 {
        EarlierCommand(s, j, id);
      } else {
        j := OpposedPending(s, id);
      }
    } else {
      OutcomeStays(s, j, id);
    }
  }

  /** Commands to come. */
  function Left(jobs: seq<Job>): nat {
    if jobs == [] then 0 else Left(jobs[1..]) + if Live(jobs[0]) then 3 - jobs[0].stage else 0
  }

  lemma {:induction false} RunLeavesLess(jobs: seq<Job>, j: nat)
    requires j < |jobs| && Live(jobs[j])
    ensures Left(jobs[j := jobs[j].(stage := jobs[j].stage + 1)]) < Left(jobs)
  {
    var done := jobs[j].(stage := jobs[j].stage + 1);
    if j == 0 {
      assert jobs[0 := done][1..] == jobs[1..];
    } else {
      assert jobs[j := done][1..] == jobs[1..][j - 1 := done];
      RunLeavesLess(jobs[1..], j - 1);
    }
  }

  ghost predicate EndsAgreeing(s: State, steps: seq<Step>, id: string) {
    Runs(s, steps) && Quiet(s, steps, id) && !Busy(After(s, steps), id) ==> Agrees(After(s, steps).store, id)
  }

  lemma {:induction false} ReachDisagreement(s: State, id: string) returns (steps: seq<Step>)
    requires Inv(s) && !WillAgree(s, id)
    ensures !EndsAgreeing(s, steps, id)
    decreases Left(s.jobs)
  {
    if !Busy(s, id) {
      FinishedAgrees(s, id);
      steps := [];
    } else {
      var j := DisagreementStays(s, id);
      var t := Apply(s, Run(j, 0));
      StepKeepsInv(s, Run(j, 0));
      RunLeavesLess(s.jobs, j);
      var rest := ReachDisagreement(t, id);
      RunCons(s, Run(j, 0), rest);
      steps := [Run(j, 0)] + rest;
      assert steps[0] == Run(j, 0) && steps[1..] == rest;
    }
  }

  // ---- main results -----------------------------------------------------------------------

  /** Every continuation that begins nothing on the id and finishes what is part-way on it leaves both its index
      entries agreeing with its record, exactly when no two commands to come are opposed and, once the record is
      written, the others lead to it. */
  lemma IndexesAgreeIff(s: State, id: string)
    requires Inv(s)
    ensures (forall steps :: EndsAgreeing(s, steps, id)) <==> WillAgree(s, id)
  {
    if WillAgree(s, id) {
      forall steps ensures EndsAgreeing(s, steps, id) {
        if Runs(s, steps) && Quiet(s, steps, id) && !Busy(After(s, steps), id) {
          QuietRunAgrees(s, steps, id);
          FinishedAgrees(After(s, steps), id);
        }
      }
    } else {
      var steps := ReachDisagreement(s, id);
      assert !EndsAgreeing(s, steps, id);
    }
  }

  /** No save of the id is short of its list command when a delete begins, no delete when a save begins; and the
      send that announces the id is through. */
  predicate Undisturbed(s: State, step: Step, id: string) {
    (if step.DeleteOne? then !Listing(s, id) else !Unlisting(s, id)) && !Announced(s, id)
  }

  lemma BeginJobs(s: State, id: string, work: Work, own: bool)
    ensures var t := Begin(s, id, work, own); var j := Job(id, work, 0, own);
      j in t.jobs && (forall k :: k in s.jobs ==> k in t.jobs) && (forall k :: k in t.jobs ==> k in s.jobs || k == j)
  {
    var t := Begin(s, id, work, own);
    assert t.jobs[|s.jobs|] in t.jobs;
  }

  lemma BeginAgreesIff(s: State, id: string, work: Work, own: bool)
    requires work.Put? && Waits(work.n) ==> forall j :: j in s.jobs ==> j.id != id
    ensures var t := Begin(s, id, work, own);
      WillAgree(t, id) <==> (if work.Drop? then !Listing(s, id) else !Unlisting(s, id)) && !Announced(s, id)
  {
    BeginJobs(s, id, work, own);
    var t, j := Begin(s, id, work, own), Job(id, work, 0, own);
    assert j.id == id && j.stage == 0;
    assert Announced(s, id) ==> Announced(t, id);
    assert Listing(s, id) ==> Listing(t, id);
    assert Unlisting(s, id) ==> Unlisting(t, id);
  }

  /** A delete, a mark-read or the pass's save leaves the index entries agreeing, in every continuation that begins
      nothing else on the id, exactly when at its start none of the saves and deletes part-way opposes it. */
  lemma RequestAgreesIff(s: State, step: Step, id: string)
    requires Inv(s) && Enabled(s, step) && Starts(s, step, id)
    ensures (forall steps :: EndsAgreeing(Apply(s, step), steps, id)) <==> Undisturbed(s, step, id)
  {
    StepKeepsInv(s, step);
    IndexesAgreeIff(Apply(s, step), id);
    StartAgreesIff(s, step, id);
  }

  lemma StartAgreesIff(s: State, step: Step, id: string)
    requires Inv(s) && Enabled(s, step) && Starts(s, step, id)
    ensures WillAgree(Apply(s, step), id) <==> Undisturbed(s, step, id)
  {
    match step
    case SendOne(op) =>
      forall j | j in s.jobs ensures j.id != id { assert JobOk(s.store, j); }
      BeginAgreesIff(s.(store := Begun(s.store, op)), id, Put(FirstCopy(op)), false);
    case DeleteOne(_) => BeginAgreesIff(s, id, Drop(s.store.records[id].user), false);
    case SaveRead(i, at) =>
      BeginAgreesIff(s.(readers := s.readers[..i] + s.readers[i + 1..]), id,
                     Put(s.readers[i].n.(status := Read, readAt := Some(at))), false);
    case SaveNext => BeginAgreesIff(s.(flight := None), id, Put(s.flight.value.n), true);
    case _ =>
  }

  /** Every save and delete of the id in the run begins undisturbed. */
  ghost predicate Orderly(s: State, steps: seq<Step>, id: string)
    requires Runs(s, steps)
    decreases |steps|
  {
    steps == [] || ((Starts(s, steps[0], id) ==> Undisturbed(s, steps[0], id))
                    && Orderly(Apply(s, steps[0]), steps[1..], id))
  }

  lemma {:induction false} OrderlyRunAgrees(s: State, steps: seq<Step>, id: string)
    requires Inv(s) && WillAgree(s, id) && Runs(s, steps) && Orderly(s, steps, id)
    ensures WillAgree(After(s, steps), id)
    decreases |steps|
  {
    if steps != [] {
      StepKeepsInv(s, steps[0]);
      if Starts(s, steps[0], id) {
        StartAgreesIff(s, steps[0], id);
      } else {
        QuietStepAgrees(s, steps[0], id);
      }
      OrderlyRunAgrees(Apply(s, steps[0]), steps[1..], id);
    }
  }

  /** From the start, a run whose saves and deletes of the id begin undisturbed has it pending exactly when its
      record waits and listed exactly when it has one, whenever none of them is part-way. */
  lemma OrderlyIndexes(steps: seq<Step>, id: string)
    requires Runs(START, steps) && Orderly(START, steps, id) && !Busy(After(START, steps), id)
    ensures Agrees(After(START, steps).store, id)
  {
    StartInv();
    FinishedAgrees(START, id);
    OrderlyRunAgrees(START, steps, id);
    FinishedAgrees(After(START, steps), id);
  }
}
