/** The notification store (records, the pending set, the users' lists) and the service operations
    on it. Times are nanoseconds; the sorted sets are scored in whole seconds. */
module NotificationSpec {
  import opened Wrappers

  datatype Status = Pending | Queued | Sending | Sent | Delivered | Failed | Read
  datatype Kind = Email | Push | InApp | Unsupported

  datatype Notification = Notification(
    user: string, kind: Kind, status: Status, scheduledFor: Option<int>, createdAt: int,
    readAt: Option<int>, retries: nat)

  datatype Origin = Origin(user: string, schedule: Option<int>, at: int)

  /** `tries` and `sent` are history only: when delivery of each id was attempted, and the user, schedule and
      time every id ever created came with. */
  datatype Store = Store(
    records: map<string, Notification>,
    pending: map<string, int>,
    lists: map<(string, string), int>,
    tries: map<string, seq<int>>,
    sent: map<string, Origin>)

  const EMPTY_STORE := Store(map[], map[], map[], map[], map[])

  function Second(t: int): int {
    t / 1_000_000_000
  }

  // The commands of a save and of a delete, each on its own key.

  function PutRecord(s: Store, id: string, n: Notification): Store {
    s.(records := s.records[id := n])
  }

  function PutList(s: Store, id: string, n: Notification): Store {
    s.(lists := s.lists[(n.user, id) := Second(n.createdAt)])
  }

  predicate Waits(n: Notification) {
    n.status.Queued? || n.status.Pending?
  }

  /** The pending set follows the status of the copy saved. */
  function PutPending(s: Store, id: string, n: Notification, now: int): Store {
    s.(pending := if Waits(n) then s.pending[id := Second(if n.scheduledFor.Some? then n.scheduledFor.value else now)]
                  else s.pending - {id})
  }

  function DropRecord(s: Store, id: string): Store {
    s.(records := s.records - {id})
  }

  function DropList(s: Store, id: string, user: string): Store {
    s.(lists := s.lists - {(user, id)})
  }

  function DropPending(s: Store, id: string): Store {
    s.(pending := s.pending - {id})
  }

  /** An undisturbed save. */
  function Save(s: Store, id: string, n: Notification, now: int): Store {
    PutPending(PutList(PutRecord(s, id, n), id, n), id, n, now)
  }

  /** The status a delivery attempt leaves and whether it succeeded; only email can fail once its
      kind is supported. */
  function Deliver(kind: Kind, mailed: bool): (Status, bool) {
    match kind
    case Email => if mailed then (Sent, true) else (Sending, false)
    case InApp => (Delivered, true)
    case Push => (Sent, true)
    case Unsupported => (Sending, false)
  }

  function Tries(s: Store, id: string): seq<int> {
    if id in s.tries then s.tries[id] else []
  }

  function Tried(s: Store, id: string, now: int): Store {
    s.(tries := s.tries[id := Tries(s, id) + [now]])
  }

  const MAX_RETRIES := 3

  /** One turn of the processing loop. */
  function Processed(n: Notification, mailed: bool): Notification {
    var (status, ok) := Deliver(n.kind, mailed);
    if ok then n.(status := status)
    else if n.retries + 1 >= MAX_RETRIES then n.(status := Failed, retries := n.retries + 1)
    else n.(status := status, retries := n.retries + 1)
  }

  function ProcessOne(s: Store, id: string, now: int, mailed: set<string>): Store {
    if id in s.records then Save(Tried(s, id, now), id, Processed(s.records[id], id in mailed), now) else s
  }

  function ProcessAll(s: Store, order: seq<string>, now: int, mailed: set<string>): Store {
    if order == [] then s
    else ProcessOne(ProcessAll(s, order[..|order| - 1], now, mailed), order[|order| - 1], now, mailed)
  }

  function ReadOne(s: Store, id: string, now: int): Store {
    if id in s.records && s.records[id].readAt == None
    then Save(s, id, s.records[id].(status := Read, readAt := Some(now)), now)
    else s
  }

  function ReadAll(s: Store, order: seq<string>, now: int): Store {
    if order == [] then s else ReadOne(ReadAll(s, order[..|order| - 1], now), order[|order| - 1], now)
  }

  datatype Op =
    | Send(id: string, user: string, kind: Kind, schedule: Option<int>, at: int, mailedNow: bool)
    | Process(order: seq<string>, at: int, mailed: set<string>)
    | MarkRead(id: string, at: int)
    | MarkAllRead(user: string, mine: seq<string>, at: int)
    | Delete(id: string)

  function Due(s: Store, now: int): set<string> {
    set id | id in s.pending && s.pending[id] <= Second(now)
  }

  ghost predicate Distinct(order: seq<string>) {
    forall i, j :: 0 <= i < j < |order| ==> order[i] != order[j]
  }

  /** Fresh ids; the processing pass and mark-all see the ids the store returns. */
  ghost predicate Ready(s: Store, op: Op) {
    match op
    case Send(id, _, _, _, _, _) => id !in s.sent
    case Process(order, now, _) => Distinct(order) && forall id :: id in order <==> id in Due(s, now)
    case MarkAllRead(user, mine, _) => Distinct(mine) && forall id :: id in mine <==> (user, id) in s.lists
    case _ => true
  }

  /** A send schedules the notification when its time is still to come, and delivers it at once otherwise. */
  predicate Schedules(op: Op)
    requires op.Send?
  {
    op.schedule.Some? && op.schedule.value > op.at
  }

  /** The first copy a send saves. */
  function FirstCopy(op: Op): Notification
    requires op.Send?
  {
    var n := Notification(op.user, op.kind, Pending, op.schedule, op.at, None, 0);
    if Schedules(op) then n.(status := Queued)
    else
      var (status, ok) := Deliver(op.kind, op.mailedNow);
      n.(status := if ok then status else Failed)
  }

  /** A send up to its save: the id is created and, unless scheduled, delivery attempted. */
  function Begun(s: Store, op: Op): Store
    requires op.Send?
  {
    var t := s.(sent := s.sent[op.id := Origin(op.user, op.schedule, op.at)]);
    if Schedules(op) then t else Tried(t, op.id, op.at)
  }

  function Do(s: Store, op: Op): Store {
    match op
    case Send(id, _, _, _, at, _) => Save(Begun(s, op), id, FirstCopy(op), at)
    case Process(order, now, mailed) => ProcessAll(s, order, now, mailed)
    case MarkRead(id, now) =>
      if id in s.records then Save(s, id, s.records[id].(status := Read, readAt := Some(now)), now) else s
    case MarkAllRead(_, mine, now) => ReadAll(s, mine, now)
    case Delete(id) =>
      if id in s.records then DropPending(DropList(DropRecord(s, id), id, s.records[id].user), id) else s
  }
}
