/** The notification store between operations that run one at a time: each whole operation of the specification is
    a run of its commands with nothing between them, and keeps the indexes agreeing with the records. */
module NotificationRest {
  import opened Wrappers
  import opened NotificationSpec
  import opened NotificationRuns
  import opened NotificationIndexes
  import opened NotificationSchedules

  /** Nobody is working on the store: every pending id is untried and every id agrees with its record. */
  ghost predicate AtRest(s: Store) {
    Inv(Idle(s)) && forall id :: Agrees(s, id)
  }

  lemma EmptyAtRest()
    ensures AtRest(EMPTY_STORE)
  {
    StartInv();
  }

  /** Everything begun is through. */
  ghost predicate Quiescent(s: State) {
    Resting(s) && s.readers == [] && forall j :: j in s.jobs ==> !Live(j)
  }

  lemma QuiescentInv(s: State)
    requires Inv(s) && Quiescent(s)
    ensures Inv(Idle(s.store))
  {
    forall id ensures !Handling(s, id) {}
    assert PassOk(Idle(s.store));
  }

  lemma SaveAgrees(s: Store, id: string, n: Notification, at: int)
    requires id in s.sent && n.user == s.sent[id].user && forall k :: Agrees(s, k)
    ensures forall k :: Agrees(Save(s, id, n, at), k)
  {
    forall k ensures Agrees(Save(s, id, n, at), k) {
      assert Agrees(s, k);
    }
  }

  lemma BegunAgrees(s: Store, op: Op)
    requires AtRest(s) && op.Send? && Ready(s, op)
    ensures forall k :: Agrees(Begun(s, op), k)
  {
    var t := Begun(s, op);
    assert t.records == s.records && t.pending == s.pending && t.lists == s.lists;
    assert forall user :: (user, op.id) !in s.lists;
    forall k ensures Agrees(t, k) {
      assert Agrees(s, k);
      assert k != op.id ==> Listed(t, k) == Listed(s, k);
    }
  }

  lemma SendKeepsRest(s: Store, op: Op)
    requires AtRest(s) && op.Send? && Ready(s, op)
    ensures AtRest(Do(s, op))
  {
    WholeSendRuns(Idle(s), op);
    RunKeepsInv(Idle(s), WholeSend(Idle(s), op));
    QuiescentInv(After(Idle(s), WholeSend(Idle(s), op)));
    var t := Begun(s, op);
    BegunAgrees(s, op);
    SaveAgrees(t, op.id, FirstCopy(op), op.at);
  }

  lemma ReadKeepsRest(s: Store, id: string, at: int)
    requires AtRest(s) && id in s.records
    ensures AtRest(Save(s, id, ReadCopyOf(s.records[id], at), at))
  {
    assert CopyOk(s, id, s.records[id]);
    WholeReadRuns(Idle(s), id, at);
    RunKeepsInv(Idle(s), WholeRead(Idle(s), id, at));
    QuiescentInv(After(Idle(s), WholeRead(Idle(s), id, at)));
    SaveAgrees(s, id, ReadCopyOf(s.records[id], at), at);
  }

  lemma {:induction false} ReadAllKeepsRest(s: Store, mine: seq<string>, at: int)
    requires AtRest(s)
    ensures AtRest(ReadAll(s, mine, at))
  {
    if mine != [] {
      var n := |mine| - 1;
      ReadAllKeepsRest(s, mine[..n], at);
      var t := ReadAll(s, mine[..n], at);
      if mine[n] in t.records && t.records[mine[n]].readAt == None {
        ReadKeepsRest(t, mine[n], at);
      }
    }
  }

  lemma DeleteKeepsRest(s: Store, id: string)
    requires AtRest(s)
    ensures AtRest(Do(s, Delete(id)))
  {
    if id in s.records {
      assert CopyOk(s, id, s.records[id]);
      WholeDeleteRuns(Idle(s), id, 0);
      RunKeepsInv(Idle(s), WholeDelete(Idle(s), id, 0));
      QuiescentInv(After(Idle(s), WholeDelete(Idle(s), id, 0)));
      forall k ensures Agrees(Do(s, Delete(id)), k) {
        assert Agrees(s, k);
      }
    }
  }

  // ---- the pass ---------------------------------------------------------------------------

  function Copies(s: Store, order: seq<string>): seq<Item>
    requires forall id :: id in order ==> id in s.records
  {
    seq(|order|, i requires 0 <= i < |order| => Item(order[i], s.records[order[i]]))
  }

  lemma {:induction false} FetchesRun(s: Store, order: seq<string>, k: nat, since: int) returns (steps: seq<Step>)
    requires k <= |order| && forall id :: id in order ==> id in s.records
    ensures var from := Idle(s).(listed := order[k..], since := since, batch := Copies(s, order)[..k]);
      Runs(from, steps) && After(from, steps) == Idle(s).(since := since, batch := Copies(s, order))
    decreases |order| - k
  {
    var from := Idle(s).(listed := order[k..], since := since, batch := Copies(s, order)[..k]);
    if k == |order| {
      assert Copies(s, order)[..k] == Copies(s, order);
      steps := [];
    } else {
      assert order[k] in order && order[k..][1..] == order[k + 1..];
      assert Copies(s, order)[..k + 1] == Copies(s, order)[..k] + [Item(order[k], s.records[order[k]])];
      var rest := FetchesRun(s, order, k + 1, since);
      RunCons(from, Fetch, rest);
      steps := [Fetch] + rest;
    }
  }

  lemma {:induction false} ProcessAllUntouched(s: Store, order: seq<string>, now: int, mailed: set<string>, id: string)
    requires id !in order && id in s.records
    ensures id in ProcessAll(s, order, now, mailed).records
    ensures ProcessAll(s, order, now, mailed).records[id] == s.records[id]
  {
    if order != [] {
      assert order[|order| - 1] in order;
      ProcessAllUntouched(s, order[..|order| - 1], now, mailed, id);
    }
  }

  /** The worker on the k-th of the copies it read, the saves of the earlier ones through. */
  function Midway(s: Store, jobs: seq<Job>, order: seq<string>, k: nat, now: int, mailed: set<string>): State
    requires k <= |order| && forall id :: id in order ==> id in s.records
  {
    State(ProcessAll(s, order[..k], now, mailed), jobs, [], now, Copies(s, order)[k..], None, [])
  }

  ghost predicate Through(jobs: seq<Job>) {
    forall j :: j in jobs ==> !Live(j)
  }

  lemma NextTurn(s: Store, jobs: seq<Job>, order: seq<string>, k: nat, now: int, mailed: set<string>)
    requires k < |order| && Distinct(order) && (forall id :: id in order ==> id in s.records) && Through(jobs)
    ensures var from := Midway(s, jobs, order, k, now, mailed); var turn := Turn(from, order[k] in mailed, now, now);
      && Runs(from, turn)
      && var job := Job(order[k], Put(Processed(s.records[order[k]], order[k] in mailed)), 3, true);
      After(from, turn) == Midway(s, jobs + [job], order, k + 1, now, mailed)
  {
    var from := Midway(s, jobs, order, k, now, mailed);
    assert order[k] in order && order[k] !in order[..k];
    ProcessAllUntouched(s, order[..k], now, mailed, order[k]);
    assert order[..k + 1][..k] == order[..k];
    assert Copies(s, order)[k..][1..] == Copies(s, order)[k + 1..];
    UndisturbedTurn(from, order[k] in mailed, now, now);
  }

  lemma {:induction false} TurnsRun(s: Store, jobs: seq<Job>, order: seq<string>, k: nat, now: int, mailed: set<string>)
    returns (steps: seq<Step>, done: seq<Job>)
    requires k <= |order| && Distinct(order) && (forall id :: id in order ==> id in s.records) && Through(jobs)
    ensures var from := Midway(s, jobs, order, k, now, mailed);
      && Runs(from, steps) && Through(done)
      && After(from, steps) == Idle(ProcessAll(s, order, now, mailed)).(jobs := done, since := now)
    decreases |order| - k
  {
    var from := Midway(s, jobs, order, k, now, mailed);
    if k == |order| {
      assert order[..k] == order && Copies(s, order)[k..] == [];
      steps, done := [], jobs;
    } else {
      NextTurn(s, jobs, order, k, now, mailed);
      var turn := Turn(from, order[k] in mailed, now, now);
      var rest;
      rest, done := TurnsRun(s, After(from, turn).jobs, order, k + 1, now, mailed);
      RunAppend(from, turn, rest);
      steps := turn + rest;
    }
  }

  /** A pass nobody disturbs is one of the runs, and leaves the store the whole pass leaves. */
  lemma PassIsRun(s: Store, order: seq<string>, now: int, mailed: set<string>) returns (steps: seq<Step>)
    requires AtRest(s) && Ready(s, Process(order, now, mailed))
    ensures Runs(Idle(s), steps) && Quiescent(After(Idle(s), steps))
    ensures After(Idle(s), steps).store == ProcessAll(s, order, now, mailed)
  {
    forall id | id in order ensures id in s.records {
      assert id in Due(s, now) && Agrees(s, id);
    }
    var fetches := FetchesRun(s, order, 0, now);
    var turns, done := TurnsRun(s, [], order, 0, now, mailed);
    assert order[0..] == order && Copies(s, order)[..0] == [] && Copies(s, order)[0..] == Copies(s, order);
    assert order[..0] == [];
    var listed := Idle(s).(listed := order, since := now);
    RunAppend(listed, fetches, turns);
    RunCons(Idle(s), ListDue(order, now), fetches + turns);
    steps := [ListDue(order, now)] + (fetches + turns);
  }

  /** Every id agrees, and every record is under the user it was created for. */
  ghost predicate InStep(s: Store) {
    && (forall id :: Agrees(s, id))
    && (forall id :: id in s.records ==> id in s.sent && s.records[id].user == s.sent[id].user)
  }

  lemma ProcessOneAgrees(s: Store, id: string, now: int, mailed: set<string>)
    requires InStep(s)
    ensures InStep(ProcessOne(s, id, now, mailed))
  {
    if id in s.records {
      forall k ensures Agrees(Tried(s, id, now), k) {
        assert Agrees(s, k);
      }
      SaveAgrees(Tried(s, id, now), id, Processed(s.records[id], id in mailed), now);
    }
  }

  lemma {:induction false} ProcessAllAgrees(s: Store, order: seq<string>, now: int, mailed: set<string>)
    requires InStep(s)
    ensures InStep(ProcessAll(s, order, now, mailed))
  {
    if order != [] {
      ProcessAllAgrees(s, order[..|order| - 1], now, mailed);
      ProcessOneAgrees(ProcessAll(s, order[..|order| - 1], now, mailed), order[|order| - 1], now, mailed);
    }
  }

  /** Every operation run on its own keeps the indexes agreeing with the records, and the rest of the invariant. */
  lemma OperationKeepsRest(s: Store, op: Op)
    requires AtRest(s) && Ready(s, op)
    ensures AtRest(Do(s, op))
  {
    match op
    case Send(_, _, _, _, _, _) => SendKeepsRest(s, op);
    case Delete(id) => DeleteKeepsRest(s, id);
    case MarkRead(id, at) => if id in s.records { ReadKeepsRest(s, id, at); }
    case MarkAllRead(_, mine, at) => ReadAllKeepsRest(s, mine, at);
    case Process(order, now, mailed) =>
      var steps := PassIsRun(s, order, now, mailed);
      RunKeepsInv(Idle(s), steps);
      QuiescentInv(After(Idle(s), steps));
      assert forall id :: id in s.records ==> CopyOk(s, id, s.records[id]);
      ProcessAllAgrees(s, order, now, mailed);
  }
}
