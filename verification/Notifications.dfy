/** The notification service over its Redis keys, updated in place. Each operation is proved
    against NotificationSpec.Do. */
module Notifications {
  import opened Wrappers
  import opened NotificationSpec
  import R = NotificationRest

  class NotificationService {
    var records: map<string, Notification>
    var pending: map<string, int>
    var lists: map<(string, string), int>
    ghost var tries: map<string, seq<int>>
    ghost var sent: map<string, Origin>

    ghost function View(): Store
      reads this
    {
      Store(records, pending, lists, tries, sent)
    }

    /** The invariant of a store at rest. */
    ghost predicate Valid()
      reads this
    {
      R.AtRest(View())
    }

    constructor ()
      ensures Valid() && View() == EMPTY_STORE
    {
      records, pending, lists, tries, sent := map[], map[], map[], map[], map[];
      R.EmptyAtRest();
    }

    /** The repository's save: the record, the user's list, then the pending set. */
    method SaveNotification(id: string, n: Notification, now: int)
      modifies this`records, this`pending, this`lists
      ensures View() == Save(old(View()), id, n, now)
    {
      records := records[id := n];
      lists := lists[(n.user, id) := Second(n.createdAt)];
      if n.status == Queued || n.status == Pending {
        var schedule := now;
        if n.scheduledFor.Some? {
          schedule := n.scheduledFor.value;
        }
        pending := pending[id := Second(schedule)];
      } else {
        pending := pending - {id};
      }
    }

    /** One delivery attempt: the status it leaves, and whether it failed. */
    method ProcessNotification(id: string, n: Notification, mailed: bool, now: int) returns (r: Notification, ok: bool)
      modifies this`tries
      ensures tries == Tried(old(View()), id, now).tries
      ensures (r.status, ok) == Deliver(n.kind, mailed) && r == n.(status := r.status)
    {
      tries := tries[id := Tries(View(), id) + [now]];
      r := n.(status := Sending);
      match n.kind {
        case Email =>
          ok := mailed;
          if ok {
            r := r.(status := Sent);
          }
        case InApp =>
          r, ok := r.(status := Delivered), true;
        case Push =>
          r, ok := r.(status := Sent), true;
        case Unsupported =>
          ok := false;
      }
    }

    method SendNotification(id: string, user: string, kind: Kind, schedule: Option<int>, now: int, mailed: bool)
      requires Valid()
      requires id !in sent
      modifies this
      ensures Valid()
      ensures View() == Do(old(View()), Send(id, user, kind, schedule, now, mailed))
    {
      ghost var before, op := View(), Send(id, user, kind, schedule, now, mailed);
      sent := sent[id := Origin(user, schedule, now)];
      var n := Notification(user, kind, Pending, schedule, now, None, 0);
      if schedule.Some? && schedule.value > now {
        n := n.(status := Queued);
      } else {
        var ok: bool;
        n, ok := ProcessNotification(id, n, mailed, now);
        if !ok {
          n := n.(status := Failed);
        }
      }
      assert View() == Begun(before, op) && n == FirstCopy(op);
      SaveNotification(id, n, now);
      R.OperationKeepsRest(before, op);
    }

    /** The scheduled pass: reads every due record first, then processes and saves one by one. */
    method ProcessPendingNotifications(order: seq<string>, now: int, mailed: set<string>)
      requires Valid()
      requires Ready(View(), Process(order, now, mailed))
      modifies this`records, this`pending, this`lists, this`tries
      ensures Valid()
      ensures View() == Do(old(View()), Process(order, now, mailed))
    {
      var batch := GetAll(order);
      ghost var before := View();
      for i := 0 to |order|
        invariant View() == ProcessAll(before, order[..i], now, mailed)
        invariant forall k :: i <= k < |order| ==>
          (order[k] in records <==> batch[k].Some?) && (batch[k].Some? ==> batch[k].value == records[order[k]])
      {
        assert order[..i + 1][..i] == order[..i];
        if batch[i].Some? {
          ProcessDue(order[i], batch[i].value, mailed, now);
        }
      }
      assert order[..|order|] == order;
      R.OperationKeepsRest(before, Process(order, now, mailed));
    }

    /** One turn of the pass: an attempt, the retry count when it fails, and the save. */
    method ProcessDue(id: string, n: Notification, mailed: set<string>, now: int)
      requires id in records && n == records[id]
      modifies this`records, this`pending, this`lists, this`tries
      ensures View() == ProcessOne(old(View()), id, now, mailed)
    {
      var r, ok := ProcessNotification(id, n, id in mailed, now);
      if !ok {
        r := r.(retries := r.retries + 1);
        if r.retries >= MAX_RETRIES {
          r := r.(status := Failed);
        }
      }
      SaveNotification(id, r, now);
    }

    /** The record of each id, absent when there is none. */
    method GetAll(order: seq<string>) returns (batch: seq<Option<Notification>>)
      ensures |batch| == |order|
      ensures forall k :: 0 <= k < |order| ==>
        (order[k] in records <==> batch[k].Some?) && (batch[k].Some? ==> batch[k].value == records[order[k]])
    {
      batch := [];
      for i := 0 to |order|
        invariant |batch| == i
        invariant forall k :: 0 <= k < i ==>
          (order[k] in records <==> batch[k].Some?) && (batch[k].Some? ==> batch[k].value == records[order[k]])
      {
        batch := batch + [if order[i] in records then Some(records[order[i]]) else None];
      }
    }

    method MarkAsRead(id: string, now: int) returns (found: bool)
      requires Valid()
      modifies this`records, this`pending, this`lists
      ensures Valid()
      ensures View() == Do(old(View()), MarkRead(id, now)) && found == (id in old(records))
    {
      R.OperationKeepsRest(View(), MarkRead(id, now));
      found := id in records;
      if found {
        SaveNotification(id, records[id].(status := Read, readAt := Some(now)), now);
      }
    }

    method MarkAllAsRead(user: string, mine: seq<string>, now: int)
      requires Valid()
      requires Ready(View(), MarkAllRead(user, mine, now))
      modifies this`records, this`pending, this`lists
      ensures Valid()
      ensures View() == Do(old(View()), MarkAllRead(user, mine, now))
    {
      ghost var before := View();
      for i := 0 to |mine|
        invariant View() == ReadAll(before, mine[..i], now)
      {
        assert mine[..i + 1][..i] == mine[..i];
        if mine[i] in records {
          var n := records[mine[i]];
          if n.readAt == None {
            SaveNotification(mine[i], n.(status := Read, readAt := Some(now)), now);
          }
        }
      }
      assert mine[..|mine|] == mine;
      R.OperationKeepsRest(before, MarkAllRead(user, mine, now));
    }

    method DeleteNotification(id: string) returns (found: bool)
      requires Valid()
      modifies this`records, this`pending, this`lists
      ensures Valid()
      ensures View() == Do(old(View()), Delete(id)) && found == (id in old(records))
    {
      R.OperationKeepsRest(View(), Delete(id));
      found := id in records;
      if found {
        var user := records[id].user;
        records := records - {id};
        lists := lists - {(user, id)};
        pending := pending - {id};
      }
    }
  }
}
