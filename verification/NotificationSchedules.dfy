/** Schedules in which one request's commands fall between those of another on the same notification: runs of
    single commands that leave an index entry without a record, or a read notification pending, and what every
    continuation then makes of it. */
module NotificationSchedules {
  import opened Wrappers
  import opened NotificationSpec
  import opened NotificationRuns
  import opened NotificationIndexes
  import opened NotificationFates

  function ReadCopyOf(n: Notification, at: int): Notification {
    n.(status := Read, readAt := Some(at))
  }

  // ---- the pieces -------------------------------------------------------------------------

  function WholeRead(s: State, id: string, at: int): seq<Step> {
    [ReadCopy(id)] + ([SaveRead(|s.readers|, at)] + AllCommands(|s.jobs|, at))
  }

  lemma WholeReadRuns(s: State, id: string, at: int)
    requires id in s.store.records
    ensures Runs(s, WholeRead(s, id, at))
    ensures var n := ReadCopyOf(s.store.records[id], at);
      After(s, WholeRead(s, id, at)) ==
        s.(store := Save(s.store, id, n, at), jobs := s.jobs + [Job(id, Put(n), 3, false)])
  {
    var job := Job(id, Put(ReadCopyOf(s.store.records[id], at)), 0, false);
    var r := Apply(s, ReadCopy(id));
    var b := Apply(r, SaveRead(|s.readers|, at));
    assert b == s.(jobs := s.jobs + [job]);
    UndisturbedIsWhole(b, |s.jobs|, at);
    assert (s.jobs + [job])[|s.jobs| := job.(stage := 3)] == s.jobs + [job.(stage := 3)];
    RunCons(r, SaveRead(|s.readers|, at), AllCommands(|s.jobs|, at));
    RunCons(s, ReadCopy(id), [SaveRead(|s.readers|, at)] + AllCommands(|s.jobs|, at));
  }

  function FirstOfRead(s: State, id: string, at: int): seq<Step> {
    [ReadCopy(id)] + ([SaveRead(|s.readers|, at)] + ([Run(|s.jobs|, at)] + []))
  }

  /** A mark-read up to its record command. */
  lemma FirstOfReadRuns(s: State, id: string, at: int)
    requires id in s.store.records
    ensures Runs(s, FirstOfRead(s, id, at))
    ensures var n := ReadCopyOf(s.store.records[id], at);
      After(s, FirstOfRead(s, id, at)) ==
        s.(store := PutRecord(s.store, id, n), jobs := s.jobs + [Job(id, Put(n), 1, false)])
  {
    var job := Job(id, Put(ReadCopyOf(s.store.records[id], at)), 0, false);
    var r := Apply(s, ReadCopy(id));
    var b := Apply(r, SaveRead(|s.readers|, at));
    assert b == s.(jobs := s.jobs + [job]);
    assert (s.jobs + [job])[|s.jobs| := job.(stage := 1)] == s.jobs + [job.(stage := 1)];
    RunCons(b, Run(|s.jobs|, at), []);
    RunCons(r, SaveRead(|s.readers|, at), [Run(|s.jobs|, at)] + []);
    RunCons(s, ReadCopy(id), [SaveRead(|s.readers|, at)] + ([Run(|s.jobs|, at)] + []));
  }

  function WholeDelete(s: State, id: string, at: int): seq<Step> {
    [DeleteOne(id)] + AllCommands(|s.jobs|, at)
  }

  lemma WholeDeleteRuns(s: State, id: string, at: int)
    requires id in s.store.records
    ensures Runs(s, WholeDelete(s, id, at))
    ensures var user := s.store.records[id].user;
      After(s, WholeDelete(s, id, at)) ==
        s.(store := DropPending(DropList(DropRecord(s.store, id), id, user), id),
           jobs := s.jobs + [Job(id, Drop(user), 3, false)])
  {
    var job := Job(id, Drop(s.store.records[id].user), 0, false);
    var b := Apply(s, DeleteOne(id));
    UndisturbedIsWhole(b, |s.jobs|, at);
    assert (s.jobs + [job])[|s.jobs| := job.(stage := 3)] == s.jobs + [job.(stage := 3)];
    RunCons(s, DeleteOne(id), AllCommands(|s.jobs|, at));
  }

  function WholeSend(s: State, op: Op): seq<Step>
    requires op.Send?
  {
    [SendOne(op)] + AllCommands(|s.jobs|, op.at)
  }

  lemma WholeSendRuns(s: State, op: Op)
    requires Enabled(s, SendOne(op))
    ensures Runs(s, WholeSend(s, op))
    ensures After(s, WholeSend(s, op)) ==
      s.(store := Save(Begun(s.store, op), op.id, FirstCopy(op), op.at),
         jobs := s.jobs + [Job(op.id, Put(FirstCopy(op)), 3, false)])
  {
    var job := Job(op.id, Put(FirstCopy(op)), 0, false);
    UndisturbedIsWhole(Apply(s, SendOne(op)), |s.jobs|, op.at);
    assert (s.jobs + [job])[|s.jobs| := job.(stage := 3)] == s.jobs + [job.(stage := 3)];
    RunCons(s, SendOne(op), AllCommands(|s.jobs|, op.at));
  }

  function FirstOfSend(s: State, op: Op): seq<Step>
    requires op.Send?
  {
    [SendOne(op)] + ([Run(|s.jobs|, op.at)] + ([Run(|s.jobs|, op.at)] + []))
  }

  /** A send up to its pending-set command. */
  lemma FirstOfSendRuns(s: State, op: Op)
    requires Enabled(s, SendOne(op))
    ensures Runs(s, FirstOfSend(s, op))
    ensures var n := FirstCopy(op);
      After(s, FirstOfSend(s, op)) ==
        s.(store := PutList(PutRecord(Begun(s.store, op), op.id, n), op.id, n),
           jobs := s.jobs + [Job(op.id, Put(n), 2, false)])
  {
    var job, run := Job(op.id, Put(FirstCopy(op)), 0, false), Run(|s.jobs|, op.at);
    var b := Apply(s, SendOne(op));
    var c := Apply(b, run);
    assert (s.jobs + [job])[|s.jobs| := job.(stage := 1)] == s.jobs + [job.(stage := 1)];
    assert (s.jobs + [job.(stage := 1)])[|s.jobs| := job.(stage := 2)] == s.jobs + [job.(stage := 2)];
    RunCons(c, run, []);
    RunCons(b, run, [run] + []);
    RunCons(s, SendOne(op), [run] + ([run] + []));
  }

  /** The last two commands of a save. */
  lemma RestOfSaveRuns(s: State, j: nat, at: int)
    requires j < |s.jobs| && s.jobs[j].work.Put? && s.jobs[j].stage == 1
    ensures var rest := [Run(j, at)] + ([Run(j, at)] + []); var job := s.jobs[j];
      && Runs(s, rest)
      && After(s, rest) == s.(store := PutPending(PutList(s.store, job.id, job.work.n), job.id, job.work.n, at),
                              jobs := s.jobs[j := job.(stage := 3)])
  {
    var t := Apply(s, Run(j, at));
    RunCons(t, Run(j, at), []);
    RunCons(s, Run(j, at), [Run(j, at)] + []);
  }

  lemma LastOfSaveRuns(s: State, j: nat, at: int)
    requires j < |s.jobs| && s.jobs[j].work.Put? && s.jobs[j].stage == 2
    ensures var rest := [Run(j, at)] + []; var job := s.jobs[j];
      && Runs(s, rest)
      && After(s, rest) == s.(store := PutPending(s.store, job.id, job.work.n, at),
                              jobs := s.jobs[j := job.(stage := 3)])
  {
    RunCons(s, Run(j, at), []);
  }

  // ---- the schedules ----------------------------------------------------------------------

  lemma TwoJobs(jobs: seq<Job>, a: Job, b: Job)
    ensures (jobs + [a] + [b])[|jobs| := a.(stage := 3)] == jobs + [a.(stage := 3), b]
    ensures |jobs| < |jobs + [a] + [b]| && (jobs + [a] + [b])[|jobs|] == a
  {
  }

  function DeleteInsideRead(s: State, id: string, at: int): seq<Step> {
    FirstOfRead(s, id, at) +
    ([DeleteOne(id)] + AllCommands(|s.jobs| + 1, at) + ([Run(|s.jobs|, at)] + ([Run(|s.jobs|, at)] + [])))
  }

  /** A delete between the record and the list command of a mark-read leaves a list entry without a record. */
  lemma GhostListEntry(s: State, id: string, at: int)
    requires Inv(s) && id in s.store.records
    ensures Runs(s, DeleteInsideRead(s, id, at))
    ensures var t := After(s, DeleteInsideRead(s, id, at)); var n := s.store.records[id];
      && Listed(t.store, id) && id !in t.store.records && id !in t.store.pending
      && t == s.(store := t.store,
                 jobs := s.jobs + [Job(id, Put(ReadCopyOf(n, at)), 3, false), Job(id, Drop(n.user), 3, false)])
  {
    assert CopyOk(s.store, id, s.store.records[id]);
    FirstOfReadRuns(s, id, at);
    var a := After(s, FirstOfRead(s, id, at));
    WholeDeleteRuns(a, id, at);
    var b := After(a, WholeDelete(a, id, at));
    TwoJobs(s.jobs, a.jobs[|s.jobs|], b.jobs[|s.jobs| + 1]);
    RestOfSaveRuns(b, |s.jobs|, at);
    var rest := [Run(|s.jobs|, at)] + ([Run(|s.jobs|, at)] + []);
    RunAppend(a, WholeDelete(a, id, at), rest);
    RunAppend(s, FirstOfRead(s, id, at), WholeDelete(a, id, at) + rest);
  }

  function ReadInsideSend(s: State, op: Op, at: int): seq<Step>
    requires op.Send?
  {
    FirstOfSend(s, op) +
    ([ReadCopy(op.id)] + ([SaveRead(|s.readers|, at)] + AllCommands(|s.jobs| + 1, at)) + ([Run(|s.jobs|, op.at)] + []))
  }

  lemma ReadInsideSendRuns(s: State, op: Op, at: int)
    requires Enabled(s, SendOne(op))
    ensures Runs(s, ReadInsideSend(s, op, at))
    ensures var n := FirstCopy(op); var r := ReadCopyOf(n, at);
      var sent := PutList(PutRecord(Begun(s.store, op), op.id, n), op.id, n);
      After(s, ReadInsideSend(s, op, at)) ==
        s.(store := PutPending(Save(sent, op.id, r, at), op.id, n, op.at),
           jobs := s.jobs + [Job(op.id, Put(n), 3, false), Job(op.id, Put(r), 3, false)])
  {
    FirstOfSendRuns(s, op);
    var a := After(s, FirstOfSend(s, op));
    WholeReadRuns(a, op.id, at);
    var b := After(a, WholeRead(a, op.id, at));
    TwoJobs(s.jobs, a.jobs[|s.jobs|], b.jobs[|s.jobs| + 1]);
    LastOfSaveRuns(b, |s.jobs|, op.at);
    RunAppend(a, WholeRead(a, op.id, at), [Run(|s.jobs|, op.at)] + []);
    RunAppend(s, FirstOfSend(s, op), WholeRead(a, op.id, at) + ([Run(|s.jobs|, op.at)] + []));
  }

  /** A mark-read between the list and the pending command of a scheduled send leaves the notification read, untried
      and pending. */
  lemma ReadStaysPending(s: State, op: Op, at: int)
    requires Inv(s) && Enabled(s, SendOne(op)) && Schedules(op)
    ensures Runs(s, ReadInsideSend(s, op, at))
    ensures var t := After(s, ReadInsideSend(s, op, at)).store;
      && op.id in t.records && t.records[op.id].status.Read? && Tries(t, op.id) == []
      && t.pending == s.store.pending[op.id := Second(op.schedule.value)]
  {
    ReadInsideSendRuns(s, op, at);
    assert TriesOk(s.store, op.id) && op.id !in s.store.pending;
  }

  function DeleteInsideSend(s: State, op: Op): seq<Step>
    requires op.Send?
  {
    FirstOfSend(s, op) + ([DeleteOne(op.id)] + AllCommands(|s.jobs| + 1, op.at) + ([Run(|s.jobs|, op.at)] + []))
  }

  lemma DeleteInsideSendRuns(s: State, op: Op)
    requires Enabled(s, SendOne(op))
    ensures Runs(s, DeleteInsideSend(s, op))
    ensures var n := FirstCopy(op); var sent := PutList(PutRecord(Begun(s.store, op), op.id, n), op.id, n);
      After(s, DeleteInsideSend(s, op)) ==
        s.(store := PutPending(DropPending(DropList(DropRecord(sent, op.id), op.id, n.user), op.id), op.id, n, op.at),
           jobs := s.jobs + [Job(op.id, Put(n), 3, false), Job(op.id, Drop(n.user), 3, false)])
  {
    FirstOfSendRuns(s, op);
    var a := After(s, FirstOfSend(s, op));
    WholeDeleteRuns(a, op.id, op.at);
    var b := After(a, WholeDelete(a, op.id, op.at));
    TwoJobs(s.jobs, a.jobs[|s.jobs|], b.jobs[|s.jobs| + 1]);
    LastOfSaveRuns(b, |s.jobs|, op.at);
    RunAppend(a, WholeDelete(a, op.id, op.at), [Run(|s.jobs|, op.at)] + []);
    RunAppend(s, FirstOfSend(s, op), WholeDelete(a, op.id, op.at) + ([Run(|s.jobs|, op.at)] + []));
  }

  /** A delete there leaves a pending id without a record. */
  lemma DeletedStaysPending(s: State, op: Op)
    requires Enabled(s, SendOne(op)) && Schedules(op)
    ensures Runs(s, DeleteInsideSend(s, op))
    ensures var t := After(s, DeleteInsideSend(s, op)).store; op.id !in t.records && op.id in t.pending
  {
    DeleteInsideSendRuns(s, op);
  }

  // ---- where they lead --------------------------------------------------------------------

  /** No later step takes such a list entry away, when nobody held a copy and no other delete was part-way. */
  lemma GhostListEntryStays(s: State, id: string, at: int, steps: seq<Step>)
    requires Inv(s) && id in s.store.records && !CopyHeld(s, id) && !Unlisting(s, id)
    ensures Runs(s, DeleteInsideRead(s, id, at)) && StaysListed(After(s, DeleteInsideRead(s, id, at)), steps, id)
  {
    GhostListEntry(s, id, at);
    RunKeepsInv(s, DeleteInsideRead(s, id, at));
    ListedWithoutRecordIff(After(s, DeleteInsideRead(s, id, at)), id);
  }

  lemma NothingHeld(s: State, id: string)
    requires s.batch == [] && s.readers == [] && s.flight.None? && |s.jobs| == 1 && !Live(s.jobs[0])
    ensures !CopyHeld(s, id) && !Unlisting(s, id)
  {
  }

  /** Such a state is one send from the start. */
  lemma GhostFromStart(op: Op, at: int, steps: seq<Step>)
    requires op.Send?
    ensures Runs(START, WholeSend(START, op))
    ensures var s := After(START, WholeSend(START, op));
      Runs(s, DeleteInsideRead(s, op.id, at)) && StaysListed(After(s, DeleteInsideRead(s, op.id, at)), steps, op.id)
  {
    StartInv();
    WholeSendRuns(START, op);
    RunKeepsInv(START, WholeSend(START, op));
    var s := After(START, WholeSend(START, op));
    assert s.jobs == [Job(op.id, Put(FirstCopy(op)), 3, false)];
    NothingHeld(s, op.id);
    GhostListEntryStays(s, op.id, at, steps);
  }

  /** Nor such a pending id: every later pass lists it, and none delivers it. */
  lemma DeletedStaysPendingForever(s: State, op: Op, steps: seq<Step>)
    requires Inv(s) && Enabled(s, SendOne(op)) && Schedules(op)
    ensures Runs(s, DeleteInsideSend(s, op)) && StaysPending(After(s, DeleteInsideSend(s, op)), steps, op.id)
  {
    NothingOfNew(s, op.id);
    DeleteInsideSendRuns(s, op);
    RunKeepsInv(s, DeleteInsideSend(s, op));
    PendingWithoutRecordIff(After(s, DeleteInsideSend(s, op)), op.id);
  }

  /** Nobody holds anything of an id not yet created. */
  lemma NothingOfNew(s: State, id: string)
    requires Inv(s) && id !in s.store.sent
    ensures !CopyHeld(s, id) && !Retiring(s, id) && !Announced(s, id)
  {
    forall j | j in s.jobs ensures j.id != id { assert JobOk(s.store, j); }
    forall i | 0 <= i < |s.batch| ensures s.batch[i].id != id { assert s.batch[i] in s.batch; }
    forall i | 0 <= i < |s.readers| ensures s.readers[i].id != id { assert s.readers[i] in s.readers; }
  }

  /** From the start: a notification scheduled for time t, marked read inside its send, is delivered by the pass
      all the same. */
  lemma ReadIsStillDelivered(op: Op, at: int, t: int)
    requires op.Send? && Schedules(op) && op.schedule.value <= t
    ensures var steps := ReadInsideSend(START, op, at);
      var pass := [ListDue([op.id], t)] + ([Fetch] + ([DeliverNext(true, t)] + []));
      && Runs(START, steps)
      && op.id in After(START, steps).store.records && After(START, steps).store.records[op.id].status.Read?
      && Runs(After(START, steps), pass) && Tries(After(After(START, steps), pass).store, op.id) == [t]
  {
    StartInv();
    ReadStaysPending(START, op, at);
    ReadInsideSendRuns(START, op, at);
    var a := After(START, ReadInsideSend(START, op, at));
    assert a.store.pending == map[op.id := Second(op.schedule.value)] && Second(op.schedule.value) <= Second(t);
    assert Due(a.store, t) == {op.id};
    var b := Apply(a, ListDue([op.id], t));
    var c := Apply(b, Fetch);
    assert c.batch == [Item(op.id, a.store.records[op.id])] && c.listed == [];
    RunCons(c, DeliverNext(true, t), []);
    RunCons(b, Fetch, [DeliverNext(true, t)] + []);
    RunCons(a, ListDue([op.id], t), [Fetch] + ([DeliverNext(true, t)] + []));
  }

  /** The next notification of a pass, deleted before its turn, is delivered all the same and its record is back. */
  lemma DeleteComesTooLate(s: State, at: int)
    requires Inv(s) && Enabled(s, DeliverNext(true, at)) && s.batch[0].id in s.store.records
    ensures var id := s.batch[0].id; var delete := WholeDelete(s, id, at);
      && Runs(s, delete) && id !in After(s, delete).store.records
      && var t := After(s, delete);
      && Runs(t, Turn(t, true, at, at))
      && id in After(t, Turn(t, true, at, at)).store.records && Tries(After(t, Turn(t, true, at, at)).store, id) == [at]
  {
    HeadIsOutstanding(s);
    WholeDeleteRuns(s, s.batch[0].id, at);
    UndisturbedTurn(After(s, WholeDelete(s, s.batch[0].id, at)), true, at, at);
  }
}
