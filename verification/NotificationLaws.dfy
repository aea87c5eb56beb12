/** What each notification operation, run on its own, leaves in the records, the users' lists and the pending set:
    told record by record, for every store at rest. */
module NotificationLaws {
  import opened Wrappers
  import opened NotificationSpec
  import opened NotificationRuns
  import opened NotificationIndexes
  import opened NotificationRest

  /** The record a send leaves, but for its status. */
  predicate Created(n: Notification, user: string, kind: Kind, schedule: Option<int>, now: int) {
    && n.user == user && n.kind == kind && n.scheduledFor == schedule && n.createdAt == now
    && n.readAt == None && n.retries == 0
  }

  lemma NewId(s: Store, id: string)
    requires AtRest(s) && id !in s.sent
    ensures Tries(s, id) == [] && id !in s.pending && id !in s.records
  {
    assert TriesOk(s, id) && (id in s.pending ==> ScoreOk(s, id));
  }

  /** A send scheduled for later is queued, pending under its second, and not attempted. */
  lemma QueueLaw(s: Store, id: string, user: string, kind: Kind, schedule: int, now: int, mailed: bool)
    requires AtRest(s) && id !in s.sent && schedule > now
    ensures var t := Do(s, Send(id, user, kind, Some(schedule), now, mailed));
      && id in t.records && t.records == s.records[id := t.records[id]]
      && Created(t.records[id], user, kind, Some(schedule), now) && t.records[id].status == Queued
      && t.lists == s.lists[(user, id) := now / 1_000_000_000]
      && t.pending == s.pending[id := schedule / 1_000_000_000] && t.tries == s.tries
  {
  }

  /** Any other is attempted at once, and its status tells how: in-app delivered, push sent, email sent or failed as
      the mail server answers, anything else failed. */
  lemma SendLaw(s: Store, id: string, user: string, kind: Kind, schedule: Option<int>, now: int, mailed: bool)
    requires AtRest(s) && id !in s.sent && (schedule == None || schedule.value <= now)
    ensures var t := Do(s, Send(id, user, kind, schedule, now, mailed));
      && id in t.records && t.records == s.records[id := t.records[id]]
      && Created(t.records[id], user, kind, schedule, now)
      && (kind == InApp ==> t.records[id].status == Delivered)
      && (kind == Push ==> t.records[id].status == Sent)
      && (kind == Email ==> t.records[id].status == if mailed then Sent else Failed)
      && (kind == Unsupported ==> t.records[id].status == Failed)
      && t.lists == s.lists[(user, id) := now / 1_000_000_000]
      && t.pending == s.pending && t.tries == s.tries[id := [now]]
  {
    NewId(s, id);
    assert s.pending - {id} == s.pending && [] + [now] == [now];
    assert !Schedules(Send(id, user, kind, schedule, now, mailed));
  }

  /** Deleting takes out the record and both index entries, and nothing else; without a record, nothing. */
  lemma DeleteLaw(s: Store, id: string)
    requires AtRest(s)
    ensures var t := Do(s, Delete(id));
      && t.records == s.records - {id} && t.pending == s.pending - {id} && t.tries == s.tries
      && forall user, k :: (user, k) in t.lists <==> (user, k) in s.lists && k != id
  {
    assert Agrees(s, id);
    assert id in s.records ==> CopyOk(s, id, s.records[id]);
    forall user, k | (user, k) in s.lists ensures ListOk(s, user, k) {}
  }

  /** Marked read at a time: the other fields as they were. */
  predicate MarkedRead(n: Notification, was: Notification, now: int) {
    && n.status == Read && n.readAt == Some(now)
    && n.user == was.user && n.kind == was.kind && n.scheduledFor == was.scheduledFor
    && n.createdAt == was.createdAt && n.retries == was.retries
  }

  /** Marking one notification read, again even if it is read: it leaves the pending set, the lists stay. */
  lemma MarkReadLaw(s: Store, id: string, now: int)
    requires AtRest(s)
    ensures var t := Do(s, MarkRead(id, now));
      && t.lists == s.lists && t.tries == s.tries && t.records.Keys == s.records.Keys
      && (id in s.records ==> MarkedRead(t.records[id], s.records[id], now))
      && (forall k :: k in s.records && k != id ==> t.records[k] == s.records[k])
      && t.pending == s.pending - {id}
  {
    assert Agrees(s, id);
    if id in s.records {
      ListEntry(s, id);
    }
  }

  /** A record's list entry, as every save writes it. */
  lemma ListEntry(s: Store, id: string)
    requires AtRest(s) && id in s.records
    ensures (s.records[id].user, id) in s.lists
    ensures s.lists[(s.records[id].user, id)] == Second(s.records[id].createdAt)
  {
    assert Agrees(s, id) && CopyOk(s, id, s.records[id]);
    assert ListOk(s, s.records[id].user, id);
  }

  // ---- mark-all ---------------------------------------------------------------------------

  predicate Unread(s: Store, id: string) {
    id in s.records && s.records[id].readAt == None
  }

  /** The store after the listed unread records have been marked. */
  ghost predicate MarkedAll(s: Store, t: Store, mine: seq<string>, now: int) {
    && t.lists == s.lists && t.tries == s.tries && t.sent == s.sent && t.records.Keys == s.records.Keys
    && (forall k :: k in s.records && k in mine && s.records[k].readAt == None ==>
          MarkedRead(t.records[k], s.records[k], now))
    && (forall k :: k in s.records && !(k in mine && s.records[k].readAt == None) ==> t.records[k] == s.records[k])
    && (forall k :: k in t.pending <==> k in s.pending && !(k in mine && Unread(s, k)))
    && (forall k :: k in t.pending ==> t.pending[k] == s.pending[k])
  }

  /** One turn of mark-all on an unread record with its list entry. */
  lemma MarkTurnLaw(t: Store, id: string, now: int)
    requires Unread(t, id) && (t.records[id].user, id) in t.lists
    requires t.lists[(t.records[id].user, id)] == Second(t.records[id].createdAt)
    ensures var u := ReadOne(t, id, now);
      && u.lists == t.lists && u.tries == t.tries && u.sent == t.sent && u.pending == t.pending - {id}
      && id in u.records && u.records == t.records[id := u.records[id]]
      && MarkedRead(u.records[id], t.records[id], now)
  {
  }

  lemma MarkedSnoc(s: Store, t: Store, u: Store, mine: seq<string>, id: string, now: int)
    requires MarkedAll(s, t, mine, now) && id !in mine && Unread(s, id)
    requires u.lists == t.lists && u.tries == t.tries && u.sent == t.sent && u.pending == t.pending - {id}
    requires u.records.Keys == t.records.Keys && MarkedRead(u.records[id], s.records[id], now)
    requires forall k :: k in t.records && k != id ==> u.records[k] == t.records[k]
    ensures MarkedAll(s, u, mine + [id], now)
  {
    forall k ensures k in mine + [id] <==> k in mine || k == id {}
  }

  lemma OneMoreMarked(s: Store, t: Store, mine: seq<string>, id: string, now: int)
    requires AtRest(s) && MarkedAll(s, t, mine, now) && id !in mine
    ensures MarkedAll(s, ReadOne(t, id, now), mine + [id], now)
  {
    if Unread(s, id) {
      ListEntry(s, id);
      MarkTurnLaw(t, id, now);
      MarkedSnoc(s, t, ReadOne(t, id, now), mine, id, now);
    } else {
      assert !Unread(t, id);
      forall k ensures k in mine + [id] <==> k in mine || k == id {}
    }
  }

  lemma ReadAllSnoc(s: Store, mine: seq<string>, id: string, now: int)
    ensures ReadAll(s, mine + [id], now) == ReadOne(ReadAll(s, mine, now), id, now)
  {
    assert (mine + [id])[..|mine|] == mine;
  }

  lemma {:induction false} ReadAllMarks(s: Store, mine: seq<string>, now: int)
    requires AtRest(s) && Distinct(mine)
    ensures MarkedAll(s, ReadAll(s, mine, now), mine, now)
  {
    if mine != [] {
      var init, last := mine[..|mine| - 1], mine[|mine| - 1];
      assert mine == init + [last] && last !in init;
      ReadAllSnoc(s, init, last, now);
      assert MarkedAll(s, ReadOne(ReadAll(s, init, now), last, now), init + [last], now) by {
        ReadAllMarks(s, init, now);
        OneMoreMarked(s, ReadAll(s, init, now), init, last, now);
      }
    }
  }

  /** Marking all of a user's notifications read: exactly the unread records of that user are marked, with this time
      and no other field changed, and leave the pending set; read ones, everybody else's and all lists stay. */
  lemma MarkAllLaw(s: Store, user: string, mine: seq<string>, now: int)
    requires AtRest(s) && Ready(s, MarkAllRead(user, mine, now))
    ensures var t := Do(s, MarkAllRead(user, mine, now));
      && t.lists == s.lists && t.tries == s.tries && t.records.Keys == s.records.Keys
      && (forall k :: k in s.records && s.records[k].user == user ==> t.records[k].readAt.Some?)
      && (forall k :: k in s.records && s.records[k].user == user && s.records[k].readAt == None ==>
            MarkedRead(t.records[k], s.records[k], now) && k !in t.pending)
      && (forall k :: k in s.records && !(s.records[k].user == user && s.records[k].readAt == None) ==>
            t.records[k] == s.records[k] && (k in t.pending <==> k in s.pending))
      && (forall k :: k in t.pending ==> k in s.pending && t.pending[k] == s.pending[k])
  {
    ReadAllMarks(s, mine, now);
    forall k | k in s.records ensures k in mine <==> s.records[k].user == user {
      ListEntry(s, k);
      assert (user, k) in s.lists ==> ListOk(s, user, k);
      assert CopyOk(s, k, s.records[k]);
    }
  }

  // ---- the pass ---------------------------------------------------------------------------

  /** One delivery by the pass: the status tells the kind and the mail's answer, and a failure is counted. */
  predicate DeliveredBy(n: Notification, was: Notification, mailed: bool) {
    && n.user == was.user && n.kind == was.kind && n.scheduledFor == was.scheduledFor
    && n.createdAt == was.createdAt && n.readAt == was.readAt
    && (was.kind == InApp ==> n.status == Delivered && n.retries == was.retries)
    && (was.kind == Push ==> n.status == Sent && n.retries == was.retries)
    && (was.kind == Email && mailed ==> n.status == Sent && n.retries == was.retries)
    && (was.kind == Email && !mailed ==> n.status == Sending && n.retries == was.retries + 1)
    && (was.kind == Unsupported ==> n.status == Sending && n.retries == was.retries + 1)
  }

  /** A turn counts a failure and gives up at the third: on any record, though none gets there. */
  lemma RetryLaw(n: Notification, mailed: bool)
    ensures n.kind == Unsupported || (n.kind == Email && !mailed) ==>
      var r := Processed(n, mailed);
      && r.retries == n.retries + 1 && r.status == (if n.retries >= 2 then Failed else Sending)
      && r == n.(status := r.status, retries := r.retries)
  {
  }

  ghost predicate Passed(s: Store, t: Store, order: seq<string>, now: int, mailed: set<string>) {
    && t.lists == s.lists && t.sent == s.sent && t.records.Keys == s.records.Keys
    && (forall k :: k in order ==>
          k in s.records && DeliveredBy(t.records[k], s.records[k], k in mailed) && Tries(t, k) == [now])
    && (forall k :: k in s.records && k !in order ==> t.records[k] == s.records[k])
    && (forall k :: k !in order ==> Tries(t, k) == Tries(s, k))
    && (forall k :: k in t.pending <==> k in s.pending && k !in order)
    && (forall k :: k in t.pending ==> t.pending[k] == s.pending[k])
  }

  ghost predicate DueAtRest(s: Store, order: seq<string>) {
    forall k :: k in order ==> k in s.records && k in s.pending && Tries(s, k) == []
  }

  /** One turn of the pass on a record never retried. */
  lemma TurnLaw(t: Store, id: string, now: int, mailed: set<string>)
    requires id in t.records && t.records[id].retries == 0
    requires (t.records[id].user, id) in t.lists
    requires t.lists[(t.records[id].user, id)] == Second(t.records[id].createdAt)
    ensures var u := ProcessOne(t, id, now, mailed);
      && u.lists == t.lists && u.sent == t.sent && id in u.records && u.records == t.records[id := u.records[id]]
      && DeliveredBy(u.records[id], t.records[id], id in mailed)
      && u.tries == t.tries[id := Tries(t, id) + [now]] && u.pending == t.pending - {id}
  {
  }

  lemma PassedSnoc(s: Store, t: Store, u: Store, order: seq<string>, id: string, now: int, mailed: set<string>)
    requires Passed(s, t, order, now, mailed) && id !in order && id in s.records
    requires u.lists == t.lists && u.sent == t.sent && u.records.Keys == t.records.Keys
    requires DeliveredBy(u.records[id], s.records[id], id in mailed) && Tries(u, id) == [now]
    requires forall k :: k != id ==> Tries(u, k) == Tries(t, k)
    requires forall k :: k in t.records && k != id ==> u.records[k] == t.records[k]
    requires u.pending == t.pending - {id}
    ensures Passed(s, u, order + [id], now, mailed)
  {
    forall k ensures k in order + [id] <==> k in order || k == id {}
  }

  lemma NeverRetried(s: Store, id: string)
    requires AtRest(s) && id in s.records && Tries(s, id) == []
    ensures s.records[id].retries == 0
  {
    assert CopyOk(s, id, s.records[id]);
  }

  lemma OneMorePassed(s: Store, t: Store, order: seq<string>, id: string, now: int, mailed: set<string>)
    requires AtRest(s) && Passed(s, t, order, now, mailed) && id !in order
    requires id in s.records && id in s.pending && Tries(s, id) == []
    ensures Passed(s, ProcessOne(t, id, now, mailed), order + [id], now, mailed)
  {
    ListEntry(s, id);
    NeverRetried(s, id);
    var u := ProcessOne(t, id, now, mailed);
    assert t.records[id] == s.records[id] && Tries(t, id) == [];
    TurnLaw(t, id, now, mailed);
    assert Tries(u, id) == [now];
    PassedSnoc(s, t, u, order, id, now, mailed);
  }

  lemma {:induction false} ProcessAllPasses(s: Store, order: seq<string>, now: int, mailed: set<string>)
    requires AtRest(s) && Distinct(order) && DueAtRest(s, order)
    ensures Passed(s, ProcessAll(s, order, now, mailed), order, now, mailed)
  {
    if order != [] {
      var init, last := order[..|order| - 1], order[|order| - 1];
      assert order == init + [last] && last !in init;
      assert DueAtRest(s, init) by {
        forall k | k in init ensures k in order {}
      }
      ProcessAllPasses(s, init, now, mailed);
      assert last in order;
      OneMorePassed(s, ProcessAll(s, init, now, mailed), init, last, now, mailed);
    }
  }

  /** A pass attempts exactly the pending notifications whose second has come, once, and takes them out of the pending
      set; nothing else changes. */
  lemma PassLaw(s: Store, order: seq<string>, now: int, mailed: set<string>)
    requires AtRest(s) && Ready(s, Process(order, now, mailed))
    ensures var t := Do(s, Process(order, now, mailed));
      && t.lists == s.lists && t.records.Keys == s.records.Keys
      && (forall k :: k in s.pending && s.pending[k] <= now / 1_000_000_000 ==>
            k in s.records && DeliveredBy(t.records[k], s.records[k], k in mailed) && Tries(t, k) == [now]
            && k !in t.pending)
      && (forall k :: !(k in s.pending && s.pending[k] <= now / 1_000_000_000) ==>
            && Tries(t, k) == Tries(s, k) && (k in t.pending <==> k in s.pending)
            && (k in s.records ==> t.records[k] == s.records[k]))
  {
    forall k | k in order ensures k in s.records && k in s.pending && Tries(s, k) == [] {
      assert k in Due(s, now) && Agrees(s, k);
      assert !Handling(Idle(s), k);
    }
    ProcessAllPasses(s, order, now, mailed);
    assert forall k :: k in s.pending && s.pending[k] <= now / 1_000_000_000 <==> k in order;
  }
}
