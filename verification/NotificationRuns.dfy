/** The notification service command by command. A save is three commands on three keys (the record, the
    user's list, the pending set) and so is a delete; between any two of them another request or the
    background pass may issue its own. The pass lists the due ids, reads their records one by one, then
    delivers and saves those copies one by one; marking a notification read saves a copy read earlier. */
module NotificationRuns {
  import opened Wrappers
  import opened NotificationSpec

  datatype Item = Item(id: string, n: Notification)

  /** A save of a copy, or a delete by a request that found the record to be this user's. `stage` counts the
      commands issued, three when it is done; `own` marks the saves of the pass. */
  datatype Work = Put(n: Notification) | Drop(user: string)
  datatype Job = Job(id: string, work: Work, stage: nat, own: bool)

  /** The store, the saves and deletes begun so far, the pass's listed ids and read copies, the copy it has
      delivered and not begun to save, and the copies handlers have read to mark them. `since` is the time of
      the listing. */
  datatype State = State(
    store: Store, jobs: seq<Job>, listed: seq<string>, since: int, batch: seq<Item>, flight: Option<Item>,
    readers: seq<Item>)

  datatype Step =
    | SendOne(op: Op)
    | DeleteOne(id: string)
    | ReadCopy(id: string)
    | SaveRead(i: nat, at: int)
    | ListDue(order: seq<string>, at: int)
    | Fetch
    | DeliverNext(mailed: bool, at: int)
    | SaveNext
    | Run(j: nat, at: int)    // the next command of a save or delete

  function Idle(s: Store): State {
    State(s, [], [], 0, [], None, [])
  }

  predicate Live(j: Job) {
    j.stage < 3
  }

  function Command(s: Store, j: Job, now: int): Store {
    match j.work
    case Put(n) =>
      if j.stage == 0 then PutRecord(s, j.id, n)
      else if j.stage == 1 then PutList(s, j.id, n)
      else PutPending(s, j.id, n, now)
    case Drop(user) =>
      if j.stage == 0 then DropRecord(s, j.id)
      else if j.stage == 1 then DropList(s, j.id, user)
      else DropPending(s, j.id)
  }

  /** The pass has no copy to save and no save of its own under way. */
  predicate Free(s: State) {
    s.flight.None? && forall j :: j in s.jobs && j.own ==> !Live(j)
  }

  /** There is one worker, its clock does not run backwards within a pass, and a delete first finds the record. */
  ghost predicate Enabled(s: State, step: Step) {
    match step
    case SendOne(op) => op.Send? && op.id !in s.store.sent
    case DeleteOne(id) => id in s.store.records
    case ReadCopy(id) => id in s.store.records
    case SaveRead(i, _) => i < |s.readers|
    case ListDue(order, at) =>
      && s.listed == [] && s.batch == [] && Free(s)
      && Distinct(order) && forall id :: id in order <==> id in Due(s.store, at)
    case Fetch => s.listed != []
    case DeliverNext(_, at) => s.listed == [] && s.batch != [] && Free(s) && s.since <= at
    case SaveNext => s.flight.Some?
    case Run(j, _) => j < |s.jobs| && Live(s.jobs[j])
  }

  function Begin(s: State, id: string, work: Work, own: bool): State {
    s.(jobs := s.jobs + [Job(id, work, 0, own)])
  }

  function Apply(s: State, step: Step): State
    requires Enabled(s, step)
  {
    match step
    case SendOne(op) => Begin(s.(store := Begun(s.store, op)), op.id, Put(FirstCopy(op)), false)
    case DeleteOne(id) => Begin(s, id, Drop(s.store.records[id].user), false)
    case ReadCopy(id) => s.(readers := s.readers + [Item(id, s.store.records[id])])
    case SaveRead(i, at) =>
      var item := s.readers[i];
      Begin(s.(readers := s.readers[..i] + s.readers[i + 1..]),
            item.id, Put(item.n.(status := Read, readAt := Some(at))), false)
    case ListDue(order, at) => s.(listed := order, since := at)
    case Fetch =>
      var id := s.listed[0];
      s.(listed := s.listed[1..],
         batch := if id in s.store.records then s.batch + [Item(id, s.store.records[id])] else s.batch)
    case DeliverNext(mailed, at) =>
      var item := s.batch[0];
      s.(batch := s.batch[1..], store := Tried(s.store, item.id, at),
         flight := Some(Item(item.id, Processed(item.n, mailed))))
    case SaveNext => Begin(s.(flight := None), s.flight.value.id, Put(s.flight.value.n), true)
    case Run(j, at) =>
      s.(store := Command(s.store, s.jobs[j], at), jobs := s.jobs[j := s.jobs[j].(stage := s.jobs[j].stage + 1)])
  }

  ghost predicate Runs(s: State, steps: seq<Step>)
    decreases |steps|
  {
    steps == [] || (Enabled(s, steps[0]) && Runs(Apply(s, steps[0]), steps[1..]))
  }

  ghost function After(s: State, steps: seq<Step>): State
    requires Runs(s, steps)
    decreases |steps|
  {
    if steps == [] then s else After(Apply(s, steps[0]), steps[1..])
  }

  lemma RunCons(s: State, step: Step, rest: seq<Step>)
    requires Enabled(s, step) && Runs(Apply(s, step), rest)
    ensures Runs(s, [step] + rest) && After(s, [step] + rest) == After(Apply(s, step), rest)
  {
    assert ([step] + rest)[1..] == rest && ([step] + rest)[0] == step;
  }

  lemma {:induction false} RunAppend(s: State, a: seq<Step>, b: seq<Step>)
    requires Runs(s, a) && Runs(After(s, a), b)
    ensures Runs(s, a + b) && After(s, a + b) == After(After(s, a), b)
    decreases |a|
  {
    if a == [] {
      assert a + b == b;
    } else {
      assert (a + b)[1..] == a[1..] + b && (a + b)[0] == a[0];
      RunAppend(Apply(s, a[0]), a[1..], b);
    }
  }

  // ---- the invariant ----------------------------------------------------------------------

  function Ids(items: seq<Item>): seq<string> {
    seq(|items|, i requires 0 <= i < |items| => items[i].id)
  }

  /** The ids of the pass under way whose delivery has not been attempted. */
  function Outstanding(s: State): seq<string> {
    Ids(s.batch) + s.listed
  }

  predicate NotBefore(schedule: Option<int>, at: int) {
    schedule.Some? ==> Second(schedule.value) <= Second(at)
  }

  /** One attempt at most, and not before the scheduled second. */
  predicate TriesOk(s: Store, id: string) {
    && |Tries(s, id)| <= 1
    && (Tries(s, id) != [] ==> id in s.sent && NotBefore(s.sent[id].schedule, Tries(s, id)[0]))
  }

  /** A record or a copy of one: the user, schedule and time it was created with, and at most one retry per attempt. */
  predicate CopyOk(s: Store, id: string, n: Notification) {
    && id in s.sent && n.user == s.sent[id].user && n.scheduledFor == s.sent[id].schedule
    && n.createdAt == s.sent[id].at && n.retries <= |Tries(s, id)|
  }

  /** A pending id is scored by its schedule. */
  predicate ScoreOk(s: Store, id: string)
    requires id in s.pending
  {
    id in s.sent && s.sent[id].schedule.Some? && s.pending[id] == Second(s.sent[id].schedule.value)
  }

  /** A list entry is its creator's, scored by its creation. */
  predicate ListOk(s: Store, user: string, id: string)
    requires (user, id) in s.lists
  {
    id in s.sent && s.sent[id].user == user && s.lists[(user, id)] == Second(s.sent[id].at)
  }

  ghost predicate StoreOk(s: Store) {
    && (forall id :: TriesOk(s, id))
    && (forall id :: id in s.records ==> CopyOk(s, id, s.records[id]))
    && (forall user, id :: (user, id) in s.lists ==> ListOk(s, user, id))
    && (forall id :: id in s.pending ==> ScoreOk(s, id))
  }

  /** A save that will add its id to the pending set: the one of a scheduled send. */
  predicate Announces(j: Job) {
    j.work.Put? && Waits(j.work.n)
  }

  predicate JobOk(s: Store, j: Job) {
    match j.work
    case Put(n) =>
      && CopyOk(s, j.id, n)
      && (j.own ==> !Waits(n) && Tries(s, j.id) != [])
      && (Waits(n) ==> n.scheduledFor.Some? && (Live(j) ==> Tries(s, j.id) == [] && j.id !in s.pending))
    case Drop(user) => j.id in s.sent && s.sent[j.id].user == user && !j.own
  }

  ghost predicate JobsOk(s: State) {
    && (forall j :: j in s.jobs ==> JobOk(s.store, j))
    && (forall i, k :: 0 <= i < |s.jobs| && 0 <= k < |s.jobs| && SameAnnouncement(s.jobs[i], s.jobs[k]) ==> i == k)
  }

  predicate SameAnnouncement(j: Job, k: Job) {
    Announces(j) && Announces(k) && j.id == k.id
  }

  ghost predicate CopiesOk(s: State) {
    && (forall item :: item in s.batch ==> CopyOk(s.store, item.id, item.n))
    && (forall item :: item in s.readers ==> CopyOk(s.store, item.id, item.n))
    && (s.flight.Some? ==>
          && CopyOk(s.store, s.flight.value.id, s.flight.value.n) && !Waits(s.flight.value.n)
          && Tries(s.store, s.flight.value.id) != [])
  }

  /** A scheduled send of the id has still to add it to the pending set. */
  predicate Announced(s: State, id: string) {
    exists j :: j in s.jobs && j.id == id && Live(j) && Announces(j)
  }

  /** An id of the pass under way is due, untried, and announced already. */
  ghost predicate DueSince(s: State, id: string) {
    && id in s.store.sent && Tries(s.store, id) == [] && NotBefore(s.store.sent[id].schedule, s.since)
    && !Announced(s, id)
  }

  ghost predicate PassOk(s: State) {
    Distinct(Outstanding(s)) && forall id :: id in Outstanding(s) ==> DueSince(s, id)
  }

  /** The pass has delivered the id and not finished saving it. */
  predicate Handling(s: State, id: string) {
    || (s.flight.Some? && s.flight.value.id == id)
    || exists j :: j in s.jobs && j.id == id && j.own && Live(j)
  }

  /** Only what the pass is handling is both tried and pending. */
  ghost predicate PendingUntried(s: State) {
    forall id :: id in s.store.pending && Tries(s.store, id) != [] ==> Handling(s, id)
  }

  ghost predicate Inv(s: State) {
    StoreOk(s.store) && JobsOk(s) && CopiesOk(s) && PassOk(s) && PendingUntried(s)
  }

  // ---- every step keeps it ----------------------------------------------------------------

  /** What one command can put into the store. */
  lemma CommandWrites(s: Store, j: Job, at: int)
    ensures var t := Command(s, j, at);
      && t.sent == s.sent && t.tries == s.tries
      && (forall id :: id in t.records ==>
            (id in s.records && t.records[id] == s.records[id])
            || (id == j.id && j.work.Put? && t.records[id] == j.work.n))
      && (forall user, id :: (user, id) in t.lists ==>
            ((user, id) in s.lists && t.lists[(user, id)] == s.lists[(user, id)])
            || (id == j.id && j.work.Put? && user == j.work.n.user
                && t.lists[(user, id)] == Second(j.work.n.createdAt)))
      && (forall id :: id in t.pending ==>
            (id in s.pending && t.pending[id] == s.pending[id])
            || (id == j.id && Announces(j) && j.stage >= 2
                && (j.work.n.scheduledFor.Some? ==> t.pending[id] == Second(j.work.n.scheduledFor.value))))
  {
    match j.work
    case Put(n) =>
      if j.stage == 0 {
      } else if j.stage == 1 {
      } else {
      }
    case Drop(user) =>
  }

  /** What no step takes away: the ids created, as they were created, and the attempts made. */
  ghost predicate Grows(s: Store, t: Store) {
    forall id :: id in s.sent ==> id in t.sent && t.sent[id] == s.sent[id] && Tries(s, id) <= Tries(t, id)
  }

  lemma StepGrows(s: State, step: Step)
    requires Inv(s) && Enabled(s, step)
    ensures Grows(s.store, Apply(s, step).store)
  {
    if step.Run? {
      CommandWrites(s.store, s.jobs[step.j], step.at);
    }
  }

  lemma HeadIsOutstanding(s: State)
    requires Inv(s) && s.batch != []
    ensures s.batch[0] in s.batch && s.batch[0].id in Outstanding(s) && DueSince(s, s.batch[0].id)
    ensures CopyOk(s.store, s.batch[0].id, s.batch[0].n)
  {
    assert Outstanding(s)[0] == s.batch[0].id;
  }

  lemma CommandKeepsStore(s: Store, j: Job, at: int)
    requires StoreOk(s) && JobOk(s, j)
    ensures StoreOk(Command(s, j, at))
  {
    CommandWrites(s, j, at);
    var t := Command(s, j, at);
    forall id ensures TriesOk(t, id) {
      assert TriesOk(s, id);
    }
    forall id | id in t.pending ensures ScoreOk(t, id) {
      assert id in s.pending ==> ScoreOk(s, id);
    }
    forall user, id | (user, id) in t.lists ensures ListOk(t, user, id) {
      assert (user, id) in s.lists ==> ListOk(s, user, id);
    }
  }

  lemma TriedKeepsStore(s: Store, id: string, at: int)
    requires StoreOk(s) && id in s.sent && Tries(s, id) == [] && NotBefore(s.sent[id].schedule, at)
    ensures StoreOk(Tried(s, id, at))
  {
    var t := Tried(s, id, at);
    forall k ensures TriesOk(t, k) {
      assert TriesOk(s, k);
    }
    forall k | k in t.pending ensures ScoreOk(t, k) {
      assert ScoreOk(s, k);
    }
  }

  lemma BegunKeepsStore(s: Store, op: Op)
    requires StoreOk(s) && op.Send? && op.id !in s.sent
    ensures StoreOk(Begun(s, op))
  {
    var t := s.(sent := s.sent[op.id := Origin(op.user, op.schedule, op.at)]);
    assert TriesOk(s, op.id);
    forall k ensures TriesOk(t, k) {
      assert TriesOk(s, k);
    }
    forall k | k in t.pending ensures ScoreOk(t, k) {
      assert ScoreOk(s, k);
    }
    if !Schedules(op) {
      TriedKeepsStore(t, op.id, op.at);
    }
  }

  lemma StepKeepsStore(s: State, step: Step)
    requires Inv(s) && Enabled(s, step)
    ensures StoreOk(Apply(s, step).store)
  {
    match step
    case Run(j, at) =>
      assert s.jobs[j] in s.jobs;
      CommandKeepsStore(s.store, s.jobs[j], at);
    case SendOne(op) => BegunKeepsStore(s.store, op);
    case DeliverNext(_, at) =>
      HeadIsOutstanding(s);
      TriedKeepsStore(s.store, s.batch[0].id, at);
    case _ =>
  }

  /** A save or delete that has just begun. */
  predicate NewJobOk(s: State, j: Job) {
    JobOk(s.store, j) && (Announces(j) ==> forall k :: k in s.jobs ==> k.id != j.id)
  }

  lemma BeginKeepsJobs(s: State, id: string, work: Work, own: bool)
    requires JobsOk(s) && NewJobOk(s, Job(id, work, 0, own))
    ensures JobsOk(Begin(s, id, work, own))
  {
    var t := Begin(s, id, work, own);
    forall i, k | 0 <= i < |t.jobs| && 0 <= k < |t.jobs| && SameAnnouncement(t.jobs[i], t.jobs[k]) ensures i == k {
      if i < |s.jobs| { assert t.jobs[i] == s.jobs[i] && s.jobs[i] in s.jobs; }
      if k < |s.jobs| { assert t.jobs[k] == s.jobs[k] && s.jobs[k] in s.jobs; }
    }
  }

  lemma CommandKeepsJob(s: State, j: nat, at: int, i: nat)
    requires Inv(s) && Enabled(s, Run(j, at)) && i < |s.jobs|
    ensures JobOk(Apply(s, Run(j, at)).store, Apply(s, Run(j, at)).jobs[i])
  {
    var job, other := s.jobs[j], s.jobs[i];
    assert job in s.jobs && other in s.jobs && JobOk(s.store, job) && JobOk(s.store, other);
    CommandWrites(s.store, job, at);
    assert i != j ==> !SameAnnouncement(other, job);
  }

  lemma CommandKeepsJobs(s: State, j: nat, at: int)
    requires Inv(s) && Enabled(s, Run(j, at))
    ensures JobsOk(Apply(s, Run(j, at)))
  {
    var t := Apply(s, Run(j, at));
    forall k | k in t.jobs ensures JobOk(t.store, k) {
      var i :| 0 <= i < |t.jobs| && t.jobs[i] == k;
      CommandKeepsJob(s, j, at, i);
    }
    forall i, k | 0 <= i < |t.jobs| && 0 <= k < |t.jobs| && SameAnnouncement(t.jobs[i], t.jobs[k]) ensures i == k {
      assert SameAnnouncement(s.jobs[i], s.jobs[k]);
    }
  }

  /** The same saves and deletes, and nothing changed that they depend on. */
  lemma JobsStay(s: State, t: State)
    requires JobsOk(s) && t.jobs == s.jobs && Grows(s.store, t.store) && t.store.pending == s.store.pending
    requires forall j :: j in s.jobs && Announces(j) && Live(j) ==> Tries(t.store, j.id) == []
    requires forall j :: j in s.jobs && j.own ==> Tries(t.store, j.id) != []
    ensures JobsOk(t)
  {
    forall j | j in t.jobs ensures JobOk(t.store, j) {
      assert JobOk(s.store, j);
    }
  }

  lemma StepKeepsJobs(s: State, step: Step)
    requires Inv(s) && Enabled(s, step)
    ensures JobsOk(Apply(s, step))
  {
    StepGrows(s, step);
    match step
    case Run(j, at) => CommandKeepsJobs(s, j, at);
    case SendOne(op) =>
      forall j | j in s.jobs ensures j.id != op.id { assert JobOk(s.store, j); }
      var u := s.(store := Begun(s.store, op));
      JobsStay(s, u);
      assert TriesOk(s.store, op.id) && op.id !in s.store.pending;
      BeginKeepsJobs(u, op.id, Put(FirstCopy(op)), false);
    case DeleteOne(id) => BeginKeepsJobs(s, id, Drop(s.store.records[id].user), false);
    case SaveRead(i, at) =>
      var item := s.readers[i];
      assert item in s.readers;
      BeginKeepsJobs(s.(readers := s.readers[..i] + s.readers[i + 1..]), item.id,
                     Put(item.n.(status := Read, readAt := Some(at))), false);
    case SaveNext => BeginKeepsJobs(s.(flight := None), s.flight.value.id, Put(s.flight.value.n), true);
    case DeliverNext(_, _) =>
      HeadIsOutstanding(s);
      forall j | j in s.jobs ensures JobOk(Apply(s, step).store, j) { assert JobOk(s.store, j); }
    case _ =>
  }

  lemma StepKeepsCopies(s: State, step: Step)
    requires Inv(s) && Enabled(s, step)
    ensures CopiesOk(Apply(s, step))
  {
    StepGrows(s, step);
    var t := Apply(s, step);
    forall id, n | CopyOk(s.store, id, n) ensures CopyOk(t.store, id, n) {}
    match step
    case Fetch => assert s.listed[0] in s.store.records ==> CopyOk(s.store, s.listed[0], s.store.records[s.listed[0]]);
    case DeliverNext(_, _) => HeadIsOutstanding(s);
    case Run(_, _) =>
    case _ =>
  }

  /** The pass keeps its place while nothing it depends on changes. */
  lemma PassStays(s: State, t: State)
    requires PassOk(s) && Grows(s.store, t.store) && t.since == s.since && Distinct(Outstanding(t))
    requires forall id :: id in Outstanding(t) ==> id in Outstanding(s) && Tries(t.store, id) == []
    requires forall id :: id in Outstanding(t) && Announced(t, id) ==> Announced(s, id)
    ensures PassOk(t)
  {
    forall id | id in Outstanding(t) ensures DueSince(t, id) {
      assert DueSince(s, id);
    }
  }

  lemma FetchOutstanding(s: State)
    requires Enabled(s, Fetch)
    ensures var id := s.listed[0]; var k := |s.batch|;
      Outstanding(Apply(s, Fetch)) ==
        if id in s.store.records then Outstanding(s) else Outstanding(s)[..k] + Outstanding(s)[k + 1..]
    ensures forall id :: id in Outstanding(Apply(s, Fetch)) ==> id in Outstanding(s)
  {
    assert s.listed == [s.listed[0]] + s.listed[1..];
    assert Ids(Apply(s, Fetch).batch) ==
      Ids(s.batch) + if s.listed[0] in s.store.records then [s.listed[0]] else [];
  }

  lemma DeliverOutstanding(s: State, mailed: bool, at: int)
    requires Enabled(s, DeliverNext(mailed, at))
    ensures Outstanding(s) == [s.batch[0].id] + Outstanding(Apply(s, DeliverNext(mailed, at)))
  {
  }

  lemma RunAnnounced(s: State, j: nat, at: int, id: string)
    requires Enabled(s, Run(j, at)) && Announced(Apply(s, Run(j, at)), id)
    ensures Announced(s, id)
  {
    var t := Apply(s, Run(j, at));
    var k :| k in t.jobs && k.id == id && Live(k) && Announces(k);
    var i :| 0 <= i < |t.jobs| && t.jobs[i] == k;
    assert s.jobs[i] in s.jobs && s.jobs[i].id == id && Live(s.jobs[i]) && Announces(s.jobs[i]);
  }

  lemma BeginAnnounced(s: State, id: string, work: Work, own: bool, k: string)
    requires Announced(Begin(s, id, work, own), k)
    ensures Announced(s, k) || (k == id && Announces(Job(id, work, 0, own)))
  {
  }

  lemma ListKeepsPass(s: State, order: seq<string>, at: int)
    requires Inv(s) && Enabled(s, ListDue(order, at))
    ensures PassOk(Apply(s, ListDue(order, at)))
  {
    var t := Apply(s, ListDue(order, at));
    assert Outstanding(t) == order;
    forall id | id in order ensures DueSince(t, id) {
      assert id in Due(s.store, at) && ScoreOk(s.store, id) && !Handling(s, id);
    }
  }

  lemma RunKeepsPass(s: State, j: nat, at: int)
    requires Inv(s) && Enabled(s, Run(j, at))
    ensures PassOk(Apply(s, Run(j, at)))
  {
    StepGrows(s, Run(j, at));
    var t := Apply(s, Run(j, at));
    CommandWrites(s.store, s.jobs[j], at);
    forall id | Announced(t, id) ensures Announced(s, id) { RunAnnounced(s, j, at, id); }
    forall id | id in Outstanding(s) ensures Tries(t.store, id) == [] { assert DueSince(s, id); }
    PassStays(s, t);
  }

  lemma FetchKeepsPass(s: State)
    requires Inv(s) && Enabled(s, Fetch)
    ensures PassOk(Apply(s, Fetch))
  {
    var t := Apply(s, Fetch);
    FetchOutstanding(s);
    assert Distinct(Outstanding(t));
    forall id | id in Outstanding(t) ensures id in Outstanding(s) && DueSince(s, id) {}
    PassStays(s, t);
  }

  lemma DistinctTail(head: string, tail: seq<string>)
    requires Distinct([head] + tail)
    ensures Distinct(tail) && head !in tail
  {
    var all := [head] + tail;
    forall i, j | 0 <= i < j < |tail| ensures tail[i] != tail[j] {
      assert all[i + 1] != all[j + 1];
    }
    forall i | 0 <= i < |tail| ensures tail[i] != head {
      assert all[0] != all[i + 1];
    }
  }

  lemma DeliverKeepsPass(s: State, mailed: bool, at: int)
    requires Inv(s) && Enabled(s, DeliverNext(mailed, at))
    ensures PassOk(Apply(s, DeliverNext(mailed, at)))
  {
    var t := Apply(s, DeliverNext(mailed, at));
    HeadIsOutstanding(s);
    StepGrows(s, DeliverNext(mailed, at));
    DeliverOutstanding(s, mailed, at);
    DistinctTail(s.batch[0].id, Outstanding(t));
    forall id | id in Outstanding(t) ensures Tries(t.store, id) == [] { assert DueSince(s, id); }
    PassStays(s, t);
  }

  lemma StepKeepsPass(s: State, step: Step)
    requires Inv(s) && Enabled(s, step)
    ensures PassOk(Apply(s, step))
  {
    if step.ListDue? {
      ListKeepsPass(s, step.order, step.at);
    } else if step.Run? {
      RunKeepsPass(s, step.j, step.at);
    } else if step.Fetch? {
      FetchKeepsPass(s);
    } else if step.DeliverNext? {
      DeliverKeepsPass(s, step.mailed, step.at);
    } else {
      StepGrows(s, step);
      forall id | id in Outstanding(s) ensures DueSince(s, id) {}
      PassStays(s, Apply(s, step));
    }
  }

  lemma StepKeepsPending(s: State, step: Step)
    requires Inv(s) && Enabled(s, step)
    ensures PendingUntried(Apply(s, step))
  {
    var t := Apply(s, step);
    forall id | id in t.store.pending && Tries(t.store, id) != [] ensures Handling(t, id) {
      match step
      case Run(j, at) => RunHandling(s, j, at, id);
      case SendOne(op) => assert op.id !in s.store.pending;
      case DeliverNext(_, _) =>
        assert id == s.batch[0].id || !Handling(s, id);
      case SaveNext =>
        assert Handling(s, id);
        assert t.jobs[|s.jobs|] in t.jobs;
      case ListDue(_, _) =>
      case _ => assert Handling(s, id);
    }
  }

  lemma RunHandling(s: State, j: nat, at: int, id: string)
    requires Inv(s) && Enabled(s, Run(j, at))
    requires var t := Apply(s, Run(j, at)).store; id in t.pending && Tries(t, id) != []
    ensures Handling(Apply(s, Run(j, at)), id)
  {
    var t, job := Apply(s, Run(j, at)), s.jobs[j];
    assert job in s.jobs && JobOk(s.store, job);
    CommandWrites(s.store, job, at);
    assert Handling(s, id);
    if !(s.flight.Some? && s.flight.value.id == id) {
      var k :| k in s.jobs && k.id == id && k.own && Live(k);
      assert JobOk(s.store, k);
      var i :| 0 <= i < |s.jobs| && s.jobs[i] == k;
      assert t.jobs[i] in t.jobs;
    }
  }

  lemma StepKeepsInv(s: State, step: Step)
    requires Inv(s) && Enabled(s, step)
    ensures Inv(Apply(s, step))
  {
    StepKeepsStore(s, step);
    StepKeepsJobs(s, step);
    StepKeepsCopies(s, step);
    StepKeepsPass(s, step);
    StepKeepsPending(s, step);
  }

  lemma {:induction false} RunKeepsInv(s: State, steps: seq<Step>)
    requires Inv(s) && Runs(s, steps)
    ensures Inv(After(s, steps))
    decreases |steps|
  {
    if steps != [] {
      StepKeepsInv(s, steps[0]);
      RunKeepsInv(Apply(s, steps[0]), steps[1..]);
    }
  }

  // ---- attempts ---------------------------------------------------------------------------

  const START := Idle(EMPTY_STORE)

  lemma StartInv()
    ensures Inv(START)
  {
    assert forall id :: TriesOk(EMPTY_STORE, id);
  }

  /** However the commands of sends, reads, deletes and passes interleave, a notification has at most one delivery
      attempt, never before its scheduled second, so its retry count never passes one; only a scheduled one can be
      pending, under that second, and only its own user can list it. */
  lemma AttemptsInEveryRun(steps: seq<Step>, id: string, user: string)
    requires Runs(START, steps)
    ensures var s := After(START, steps).store;
      && |Tries(s, id)| <= 1
      && (Tries(s, id) != [] ==>
            id in s.sent && (s.sent[id].schedule.Some? ==>
              Second(s.sent[id].schedule.value) <= Second(Tries(s, id)[0])))
      && (id in s.records ==> s.records[id].retries <= 1)
      && (id in s.pending ==>
            && id in s.sent && s.sent[id].schedule.Some?
            && s.pending[id] == Second(s.sent[id].schedule.value))
      && ((user, id) in s.lists ==>
            id in s.sent && s.sent[id].user == user && s.lists[(user, id)] == Second(s.sent[id].at))
  {
    StartInv();
    RunKeepsInv(START, steps);
    var s := After(START, steps).store;
    assert TriesOk(s, id);
    assert (id in s.pending ==> ScoreOk(s, id)) && ((user, id) in s.lists ==> ListOk(s, user, id));
  }

  /** The worker is between passes. */
  ghost predicate Resting(s: State) {
    Outstanding(s) == [] && Free(s)
  }

  /** Where an outstanding id goes. */
  lemma OutstandingMoves(s: State, step: Step, id: string)
    requires Enabled(s, step) && id in Outstanding(s)
    ensures id in Outstanding(Apply(s, step)) || (step.Fetch? && id == s.listed[0] && id !in s.store.records)
      || (step.DeliverNext? && id == s.batch[0].id)
  {
    var t := Apply(s, step);
    match step {
      case Fetch =>
        FetchOutstanding(s);
        assert id in Ids(s.batch) || id == s.listed[0] || id in s.listed[1..];
      case DeliverNext(_, _) => assert Ids(s.batch) == [s.batch[0].id] + Ids(t.batch);
      case _ =>
    }
  }

  /** A delete of the id has not issued its first command. */
  predicate Deleting(s: State, id: string) {
    exists j :: j in s.jobs && j.id == id && j.work.Drop? && j.stage == 0
  }

  /** Attempted, or read by the pass under way. */
  predicate Taken(s: State, id: string) {
    Tries(s.store, id) != [] || id in Ids(s.batch)
  }

  /** Or listed by it, with a record nobody is deleting. */
  predicate BoundFor(s: State, id: string) {
    Taken(s, id) || (id in s.listed && id in s.store.records && !Deleting(s, id))
  }

  lemma RunDeleting(s: State, j: nat, at: int, id: string)
    requires Enabled(s, Run(j, at)) && !Deleting(s, id)
    ensures !Deleting(Apply(s, Run(j, at)), id)
    ensures id in s.store.records ==> id in Apply(s, Run(j, at)).store.records
  {
    assert s.jobs[j] in s.jobs;
  }

  lemma StepKeepsTaken(s: State, step: Step, id: string)
    requires Inv(s) && Enabled(s, step) && Taken(s, id)
    ensures Taken(Apply(s, step), id)
  {
    StepGrows(s, step);
    if Tries(s.store, id) != [] {
      assert TriesOk(s.store, id);
    } else if step.Fetch? {
      assert Ids(Apply(s, step).batch) == Ids(s.batch) + if s.listed[0] in s.store.records then [s.listed[0]] else [];
    } else if step.DeliverNext? {
      assert Ids(s.batch) == [s.batch[0].id] + Ids(Apply(s, step).batch);
    }
  }

  lemma StepKeepsBoundFor(s: State, step: Step, id: string)
    requires Inv(s) && Enabled(s, step) && BoundFor(s, id) && step != DeleteOne(id)
    ensures BoundFor(Apply(s, step), id)
  {
    if Taken(s, id) {
      StepKeepsTaken(s, step, id);
    } else {
      match step
      case Run(j, at) => RunDeleting(s, j, at, id);
      case Fetch => assert Ids(Apply(s, step).batch) ==
        Ids(s.batch) + if s.listed[0] in s.store.records then [s.listed[0]] else [];
      case _ =>
    }
  }

  lemma RestingTaken(s: State, id: string)
    requires Inv(s) && Resting(s) && Taken(s, id)
    ensures |Tries(s.store, id)| == 1 && id !in s.store.pending
  {
    assert TriesOk(s.store, id) && Ids(s.batch) == [];
    assert id in s.store.pending ==> !Handling(s, id);
  }

  /** Whatever the handlers do meanwhile, what the pass has read has been attempted exactly once, and has left the
      pending set, when the worker rests. */
  lemma {:induction false} PassAttemptsWhatItRead(s: State, steps: seq<Step>, id: string)
    requires Inv(s) && Runs(s, steps) && Taken(s, id) && Resting(After(s, steps))
    ensures |Tries(After(s, steps).store, id)| == 1 && id !in After(s, steps).store.pending
    decreases |steps|
  {
    if steps == [] {
      RestingTaken(s, id);
    } else {
      StepKeepsInv(s, steps[0]);
      StepKeepsTaken(s, steps[0], id);
      PassAttemptsWhatItRead(Apply(s, steps[0]), steps[1..], id);
    }
  }

  /** So has a listed notification that nobody deletes. */
  lemma {:induction false} PassAttemptsDueOnce(s: State, steps: seq<Step>, id: string)
    requires Inv(s) && Runs(s, steps) && BoundFor(s, id) && Resting(After(s, steps))
    requires forall i :: 0 <= i < |steps| ==> steps[i] != DeleteOne(id)
    ensures |Tries(After(s, steps).store, id)| == 1 && id !in After(s, steps).store.pending
    decreases |steps|
  {
    if steps == [] {
      RestingTaken(s, id);
    } else {
      StepKeepsInv(s, steps[0]);
      StepKeepsBoundFor(s, steps[0], id);
      PassAttemptsDueOnce(Apply(s, steps[0]), steps[1..], id);
    }
  }

  /** The pass comes to the listed id and finds its record. */
  ghost predicate Found(s: State, steps: seq<Step>, id: string)
    requires Runs(s, steps)
    decreases |steps|
  {
    steps != [] && ((steps[0].Fetch? && s.listed[0] == id && id in s.store.records)
                    || Found(Apply(s, steps[0]), steps[1..], id))
  }

  lemma DistinctDrop(all: seq<string>, k: nat)
    requires Distinct(all) && k < |all|
    ensures all[k] !in all[..k] + all[k + 1..]
  {
    var rest := all[..k] + all[k + 1..];
    forall i | 0 <= i < |rest| ensures rest[i] != all[k] {
      assert rest[i] == all[if i < k then i else i + 1];
    }
  }

  /** The pass reads the record of the id it has come to, or passes it over. */
  lemma FetchReads(s: State)
    requires Inv(s) && Enabled(s, Fetch)
    ensures var id := s.listed[0]; var t := Apply(s, Fetch);
      if id in s.store.records then id in Ids(t.batch) else id !in Outstanding(t)
  {
    var id, k := s.listed[0], |s.batch|;
    FetchOutstanding(s);
    assert Outstanding(s)[k] == id;
    if id in s.store.records {
      assert Ids(Apply(s, Fetch).batch)[k] == id;
    } else {
      DistinctDrop(Outstanding(s), k);
    }
  }

  lemma StepKeepsListed(s: State, step: Step, id: string)
    requires Inv(s) && Enabled(s, step) && id in s.listed && !(step.Fetch? && s.listed[0] == id)
    ensures id in Apply(s, step).listed
  {
  }

  lemma StepPassesOver(s: State, step: Step, id: string)
    requires Inv(s) && Enabled(s, step) && !step.ListDue? && id in s.store.sent && id !in Outstanding(s)
    ensures Tries(Apply(s, step).store, id) == Tries(s.store, id) && id !in Outstanding(Apply(s, step))
  {
    match step
    case Fetch => FetchOutstanding(s);
    case DeliverNext(mailed, at) => DeliverOutstanding(s, mailed, at);
    case Run(j, at) => CommandWrites(s.store, s.jobs[j], at);
    case _ =>
  }

  lemma {:induction false} PassedOverStaysUntried(s: State, steps: seq<Step>, id: string)
    requires Inv(s) && Runs(s, steps) && id in s.store.sent && id !in Outstanding(s)
    requires forall i :: 0 <= i < |steps| ==> !steps[i].ListDue?
    ensures Tries(After(s, steps).store, id) == Tries(s.store, id)
    decreases |steps|
  {
    if steps != [] {
      StepKeepsInv(s, steps[0]);
      StepGrows(s, steps[0]);
      StepPassesOver(s, steps[0], id);
      PassedOverStaysUntried(Apply(s, steps[0]), steps[1..], id);
    }
  }

  /** By the end of the pass a listed notification has been attempted exactly when its record was there at the
      moment the pass read it. */
  lemma {:induction false} ListedIsAttemptedIff(s: State, steps: seq<Step>, id: string)
    requires Inv(s) && Runs(s, steps) && id in s.listed && Resting(After(s, steps))
    requires forall i :: 0 <= i < |steps| ==> !steps[i].ListDue?
    ensures Tries(After(s, steps).store, id) != [] <==> Found(s, steps, id)
    decreases |steps|
  {
    assert id in Outstanding(s) && DueSince(s, id);
    if steps != [] {
      var t := Apply(s, steps[0]);
      StepKeepsInv(s, steps[0]);
      StepGrows(s, steps[0]);
      if !(steps[0].Fetch? && s.listed[0] == id) {
        StepKeepsListed(s, steps[0], id);
        ListedIsAttemptedIff(t, steps[1..], id);
      } else if id in s.store.records {
        FetchReads(s);
        PassAttemptsWhatItRead(t, steps[1..], id);
      } else {
        FetchReads(s);
        PassedOverStaysUntried(t, steps[1..], id);
        NotListedNotFound(t, steps[1..], id);
      }
    }
  }

  lemma {:induction false} NotListedNotFound(s: State, steps: seq<Step>, id: string)
    requires Inv(s) && Runs(s, steps) && id in s.store.sent && id !in Outstanding(s)
    requires forall i :: 0 <= i < |steps| ==> !steps[i].ListDue?
    ensures !Found(s, steps, id)
    decreases |steps|
  {
    if steps != [] {
      StepKeepsInv(s, steps[0]);
      StepGrows(s, steps[0]);
      StepPassesOver(s, steps[0], id);
      NotListedNotFound(Apply(s, steps[0]), steps[1..], id);
    }
  }

  /** The commands of a save or delete with nothing between them. */
  function Whole(s: Store, j: Job, at: int): Store {
    match j.work
    case Put(n) => Save(s, j.id, n, at)
    case Drop(user) => DropPending(DropList(DropRecord(s, j.id), j.id, user), j.id)
  }

  function AllCommands(j: nat, at: int): seq<Step> {
    [Run(j, at), Run(j, at), Run(j, at)]
  }

  /** Undisturbed, the three commands are the whole save or delete. */
  lemma UndisturbedIsWhole(s: State, j: nat, at: int)
    requires j < |s.jobs| && s.jobs[j].stage == 0
    ensures Runs(s, AllCommands(j, at))
    ensures After(s, AllCommands(j, at)) ==
      s.(store := Whole(s.store, s.jobs[j], at), jobs := s.jobs[j := s.jobs[j].(stage := 3)])
  {
    var step := Run(j, at);
    var t := Apply(s, step);
    var u := Apply(t, step);
    RunCons(u, step, []);
    RunCons(t, step, [step] + []);
    RunCons(s, step, [step] + ([step] + []));
    assert [step] + ([step] + ([step] + [])) == AllCommands(j, at);
    assert Apply(u, step).jobs == s.jobs[j := s.jobs[j].(stage := 3)];
  }

  function Turn(s: State, mailed: bool, at: int, savedAt: int): seq<Step> {
    [DeliverNext(mailed, at)] + ([SaveNext] + AllCommands(|s.jobs|, savedAt))
  }

  /** An undisturbed turn of the pass: one attempt and one save. */
  lemma UndisturbedTurn(s: State, mailed: bool, at: int, savedAt: int)
    requires Enabled(s, DeliverNext(mailed, at))
    ensures Runs(s, Turn(s, mailed, at, savedAt))
    ensures var item := s.batch[0]; var n := Processed(item.n, mailed);
      After(s, Turn(s, mailed, at, savedAt)) ==
        s.(batch := s.batch[1..], store := Save(Tried(s.store, item.id, at), item.id, n, savedAt),
           jobs := s.jobs + [Job(item.id, Put(n), 3, true)])
  {
    var d := Apply(s, DeliverNext(mailed, at));
    var b := Apply(d, SaveNext);
    UndisturbedIsWhole(b, |s.jobs|, savedAt);
    var job := Job(s.batch[0].id, Put(Processed(s.batch[0].n, mailed)), 0, true);
    assert b.jobs == s.jobs + [job];
    assert (s.jobs + [job])[|s.jobs| := job.(stage := 3)] == s.jobs + [job.(stage := 3)];
    RunCons(d, SaveNext, AllCommands(|s.jobs|, savedAt));
    RunCons(s, DeliverNext(mailed, at), [SaveNext] + AllCommands(|s.jobs|, savedAt));
  }

  /** An attempt that fails leaves the notification in `sending`, outside the pending set, and never marked failed:
      the retry limit is out of reach. */
  lemma FailedAttemptIsParked(s: State, mailed: bool, at: int, savedAt: int)
    requires Inv(s) && Enabled(s, DeliverNext(mailed, at))
    ensures Runs(s, Turn(s, mailed, at, savedAt))
    ensures var t := After(s, Turn(s, mailed, at, savedAt)).store; var id := s.batch[0].id;
      && id in t.records && id !in t.pending && !t.records[id].status.Failed?
      && (t.records[id].status.Sending? <==> !Deliver(s.batch[0].n.kind, mailed).1)
  {
    HeadIsOutstanding(s);
    UndisturbedTurn(s, mailed, at, savedAt);
  }
}
