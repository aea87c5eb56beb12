/** A port call row, the operations that change it, and the append-only timeline they leave.
    Times are nanoseconds; the timeline records them in whole seconds. */
module PortCallSpec {
  import opened Wrappers

  datatype Status = Draft | Planned | Confirmed | Arrived | Alongside | Departed | Completed | Cancelled

  datatype PortCall = PortCall(
    status: Status, eta: Option<int>, etd: Option<int>, ata: Option<int>, atd: Option<int>,
    berth: Option<string>, terminal: Option<string>, agent: Option<string>)

  /** Optional new values for the columns of a port call. */
  datatype Input = Input(
    status: Option<Status>, eta: Option<int>, etd: Option<int>, ata: Option<int>, atd: Option<int>,
    berth: Option<string>, terminal: Option<string>, agent: Option<string>)

  const NO_INPUT := Input(None, None, None, None, None, None, None, None)

  datatype Event =
    | Created
    | StatusChanged(from: Status, to: Status)
    | BerthConfirmed(name: string)
    | EtaUpdated(was: Option<int>, now: Option<int>)
    | AgentAssigned(agent: string)
    | NoteAdded(text: string)

  datatype Op =
    | Update(input: Input)
    | ChangeStatus(to: Status, at: int)
    | ConfirmBerth(name: string, term: string)
    | AssignAgent(agentId: string)
    | AddNote(text: string)

  datatype Call = Call(row: PortCall, timeline: seq<Event>)

  function Allowed(from: Status): seq<Status> {
    match from
    case Draft => [Planned, Cancelled]
    case Planned => [Confirmed, Cancelled]
    case Confirmed => [Arrived, Cancelled]
    case Arrived => [Alongside, Cancelled]
    case Alongside => [Departed, Cancelled]
    case Departed => [Completed]
    case Completed => []
    case Cancelled => []
  }

  predicate Legal(from: Status, to: Status) {
    to in Allowed(from)
  }

  function Second(t: Option<int>): Option<int> {
    if t.Some? then Some(t.value / 1_000_000_000) else None
  }

  function Or<T>(given: Option<T>, prev: Option<T>): Option<T> {
    if given.Some? then given else prev
  }

  /** The row the repository's update leaves. */
  function Overlay(p: PortCall, i: Input): PortCall {
    PortCall(if i.status.Some? then i.status.value else p.status, Or(i.eta, p.eta), Or(i.etd, p.etd), Or(i.ata, p.ata),
             Or(i.atd, p.atd), Or(i.berth, p.berth), Or(i.terminal, p.terminal), Or(i.agent, p.agent))
  }

  // What one operation appends, piece by piece: at most one status step, the first berth, the ETA
  // change and the first agent, in that order.

  function StatusPart(prev: PortCall, now: PortCall, i: Input): seq<Event> {
    if i.status.Some? && prev.status != now.status then [StatusChanged(prev.status, now.status)] else []
  }

  function BerthPart(prev: PortCall, now: PortCall, i: Input): seq<Event> {
    if i.berth.Some? && prev.berth.None? && now.berth.Some? then [BerthConfirmed(now.berth.value)] else []
  }

  function EtaPart(prev: PortCall, now: PortCall, i: Input): seq<Event> {
    if i.eta.Some? && (prev.eta.None? || prev.eta != now.eta) then
      [EtaUpdated(Second(prev.eta), Second(now.eta))] else []
  }

  function AgentPart(prev: PortCall, now: PortCall, i: Input): seq<Event> {
    if i.agent.Some? && prev.agent.None? && now.agent.Some? then [AgentAssigned(now.agent.value)] else []
  }

  /** The events an update appends, in order. */
  function Events(prev: PortCall, now: PortCall, i: Input): seq<Event> {
    StatusPart(prev, now, i) + BerthPart(prev, now, i) + EtaPart(prev, now, i) + AgentPart(prev, now, i)
  }

  /** The input each entry point passes on to the update. */
  function InputOf(op: Op): Input
    requires !op.AddNote?
  {
    match op
    case Update(i) => i
    case ChangeStatus(to, at) =>
      NO_INPUT.(status := Some(to),
                ata := if to.Arrived? then Some(at) else None,
                atd := if to.Departed? then Some(at) else None)
    case ConfirmBerth(name, term) => NO_INPUT.(berth := Some(name), terminal := Some(term))
    case AssignAgent(a) => NO_INPUT.(agent := Some(a))
  }

  /** A port call row with the timeline its creation leaves. */
  function Opened(start: PortCall): Call {
    Call(start, [Created])
  }

  function DoUpdate(c: Call, i: Input): (Call, bool) {
    if i.status.Some? && !Legal(c.row.status, i.status.value) then (c, false)
    else (Call(Overlay(c.row, i), c.timeline + Events(c.row, Overlay(c.row, i), i)), true)
  }

  /** The new row and timeline, and whether the operation was accepted. */
  function Do(c: Call, op: Op): (Call, bool) {
    if op.AddNote? then (c.(timeline := c.timeline + [NoteAdded(op.text)]), true) else DoUpdate(c, InputOf(op))
  }

  function After(c: Call, ops: seq<Op>): Call {
    if ops == [] then c else Do(After(c, ops[..|ops| - 1]), ops[|ops| - 1]).0
  }

  // ---- replaying the timeline -------------------------------------------------------------

  /** Following the status events from a start; none when an event does not continue the chain or
      is not a legal edge. */
  function ReplayStatus(from: Status, events: seq<Event>): Option<Status> {
    if events == [] then Some(from)
    else
      var before, e := ReplayStatus(from, events[..|events| - 1]), events[|events| - 1];
      if !e.StatusChanged? then before
      else if before == Some(e.from) && Legal(e.from, e.to) then Some(e.to)
      else None
  }

  /** Following the ETA events from a start; the outer option is none when the chain breaks. */
  function ReplayEta(from: Option<int>, events: seq<Event>): Option<Option<int>> {
    if events == [] then Some(from)
    else
      var before, e := ReplayEta(from, events[..|events| - 1]), events[|events| - 1];
      if !e.EtaUpdated? then before else if before == Some(e.was) then Some(e.now) else None
  }

  datatype Kind = IsStatus | IsBerth | IsAgent

  predicate Is(e: Event, k: Kind) {
    match k
    case IsStatus => e.StatusChanged?
    case IsBerth => e.BerthConfirmed?
    case IsAgent => e.AgentAssigned?
  }

  function Count(events: seq<Event>, k: Kind): nat {
    if events == [] then 0 else Count(events[..|events| - 1], k) + if Is(events[|events| - 1], k) then 1 else 0
  }

  lemma {:induction false} ReplayStatusAppend(from: Status, a: seq<Event>, b: seq<Event>)
    requires ReplayStatus(from, a).Some?
    ensures ReplayStatus(from, a + b) == ReplayStatus(ReplayStatus(from, a).value, b)
  {
    if b == [] {
      assert a + b == a;
    } else {
      assert (a + b)[..|a + b| - 1] == a + b[..|b| - 1];
      ReplayStatusAppend(from, a, b[..|b| - 1]);
    }
  }

  lemma {:induction false} ReplayEtaAppend(from: Option<int>, a: seq<Event>, b: seq<Event>)
    requires ReplayEta(from, a).Some?
    ensures ReplayEta(from, a + b) == ReplayEta(ReplayEta(from, a).value, b)
  {
    if b == [] {
      assert a + b == a;
    } else {
      assert (a + b)[..|a + b| - 1] == a + b[..|b| - 1];
      ReplayEtaAppend(from, a, b[..|b| - 1]);
    }
  }

  lemma {:induction false} CountAppend(a: seq<Event>, b: seq<Event>, k: Kind)
    ensures Count(a + b, k) == Count(a, k) + Count(b, k)
  {
    if b == [] {
      assert a + b == a;
    } else {
      assert (a + b)[..|a + b| - 1] == a + b[..|b| - 1];
      CountAppend(a, b[..|b| - 1], k);
    }
  }

  function Rank(s: Status): nat {
    match s
    case Draft => 0
    case Planned => 1
    case Confirmed => 2
    case Arrived => 3
    case Alongside => 4
    case Departed => 5
    case Completed => 6
    case Cancelled => 6
  }

  lemma AppendedStatus(prev: PortCall, i: Input)
    requires i.status.Some? ==> Legal(prev.status, i.status.value)
    ensures ReplayStatus(prev.status, Events(prev, Overlay(prev, i), i)) == Some(Overlay(prev, i).status)
  {
    var now := Overlay(prev, i);
    var a, b, c, d := StatusPart(prev, now, i), BerthPart(prev, now, i), EtaPart(prev, now, i), AgentPart(prev, now, i);
    assert ReplayStatus(prev.status, a) == Some(now.status);
    ReplayStatusAppend(prev.status, a, b);
    ReplayStatusAppend(prev.status, a + b, c);
    ReplayStatusAppend(prev.status, a + b + c, d);
  }

  lemma AppendedEta(prev: PortCall, i: Input)
    ensures ReplayEta(Second(prev.eta), Events(prev, Overlay(prev, i), i)) == Some(Second(Overlay(prev, i).eta))
  {
    var now := Overlay(prev, i);
    var a, b, c, d := StatusPart(prev, now, i), BerthPart(prev, now, i), EtaPart(prev, now, i), AgentPart(prev, now, i);
    assert ReplayEta(Second(prev.eta), c) == Some(Second(now.eta));
    ReplayEtaAppend(Second(prev.eta), a, b);
    ReplayEtaAppend(Second(prev.eta), a + b, c);
    ReplayEtaAppend(Second(prev.eta), a + b + c, d);
  }

  function First(part: seq<Event>, k: Kind): nat {
    if part != [] && Is(part[0], k) then 1 else 0
  }

  lemma CountParts(prev: PortCall, now: PortCall, i: Input, k: Kind)
    ensures Count(Events(prev, now, i), k)
         == First(StatusPart(prev, now, i), k) + First(BerthPart(prev, now, i), k)
          + First(EtaPart(prev, now, i), k) + First(AgentPart(prev, now, i), k)
  {
    var a, b, c, d := StatusPart(prev, now, i), BerthPart(prev, now, i), EtaPart(prev, now, i), AgentPart(prev, now, i);
    CountAppend(a, b, k);
    CountAppend(a + b, c, k);
    CountAppend(a + b + c, d, k);
    CountShort(a, k);
    CountShort(b, k);
    CountShort(c, k);
    CountShort(d, k);
  }

  lemma CountShort(events: seq<Event>, k: Kind)
    requires |events| <= 1
    ensures Count(events, k) == First(events, k)
  {
  }

  lemma AppendedCounts(prev: PortCall, i: Input)
    requires i.status.Some? ==> Legal(prev.status, i.status.value)
    ensures var now := Overlay(prev, i); var es := Events(prev, now, i);
      && Count(es, IsStatus) + Rank(prev.status) <= Rank(now.status)
      && Count(es, IsBerth) == (if prev.berth.None? && now.berth.Some? then 1 else 0)
      && Count(es, IsAgent) == (if prev.agent.None? && now.agent.Some? then 1 else 0)
  {
    CountParts(prev, Overlay(prev, i), i, IsStatus);
    CountParts(prev, Overlay(prev, i), i, IsBerth);
    CountParts(prev, Overlay(prev, i), i, IsAgent);
  }

  /** The timeline clauses relative to the row a port call was created with. */
  ghost predicate Inv(start: PortCall, c: Call) {
    && ReplayStatus(start.status, c.timeline) == Some(c.row.status)
    && ReplayEta(Second(start.eta), c.timeline) == Some(Second(c.row.eta))
    && Count(c.timeline, IsStatus) + Rank(start.status) <= Rank(c.row.status)
    && Count(c.timeline, IsBerth) == (if start.berth.None? && c.row.berth.Some? then 1 else 0)
    && Count(c.timeline, IsAgent) == (if start.agent.None? && c.row.agent.Some? then 1 else 0)
    && (start.berth.Some? ==> c.row.berth.Some?) && (start.agent.Some? ==> c.row.agent.Some?)
  }

  lemma AppendKeepsInv(start: PortCall, c: Call, now: PortCall, es: seq<Event>)
    requires Inv(start, c)
    requires ReplayStatus(c.row.status, es) == Some(now.status)
    requires ReplayEta(Second(c.row.eta), es) == Some(Second(now.eta))
    requires Count(es, IsStatus) + Rank(c.row.status) <= Rank(now.status)
    requires Count(es, IsBerth) == if c.row.berth.None? && now.berth.Some? then 1 else 0
    requires Count(es, IsAgent) == if c.row.agent.None? && now.agent.Some? then 1 else 0
    requires (c.row.berth.Some? ==> now.berth.Some?) && (c.row.agent.Some? ==> now.agent.Some?)
    ensures Inv(start, Call(now, c.timeline + es))
  {
    ReplayStatusAppend(start.status, c.timeline, es);
    ReplayEtaAppend(Second(start.eta), c.timeline, es);
    CountAppend(c.timeline, es, IsStatus);
    CountAppend(c.timeline, es, IsBerth);
    CountAppend(c.timeline, es, IsAgent);
  }

  lemma StepKeepsInv(start: PortCall, c: Call, op: Op)
    requires Inv(start, c)
    ensures Inv(start, Do(c, op).0)
  {
    if op.AddNote? {
      AppendKeepsInv(start, c, c.row, [NoteAdded(op.text)]);
    } else {
      UpdateKeepsInv(start, c, InputOf(op));
    }
  }

  lemma UpdateKeepsInv(start: PortCall, c: Call, i: Input)
    requires Inv(start, c)
    ensures Inv(start, DoUpdate(c, i).0)
  {
    if i.status.Some? ==> Legal(c.row.status, i.status.value) {
      AppendedStatus(c.row, i);
      AppendedEta(c.row, i);
      AppendedCounts(c.row, i);
      AppendKeepsInv(start, c, Overlay(c.row, i), Events(c.row, Overlay(c.row, i), i));
    }
  }

  lemma {:induction false} RunKeepsInv(start: PortCall, ops: seq<Op>)
    ensures Inv(start, After(Opened(start), ops))
  {
    if ops != [] {
      RunKeepsInv(start, ops[..|ops| - 1]);
      StepKeepsInv(start, After(Opened(start), ops[..|ops| - 1]), ops[|ops| - 1]);
    }
  }

  /** For every run from a newly created port call: its status events form a chain of legal edges
      from draft to the current status, at most six of them; the ETA events replayed from the
      creation ETA give the current one in seconds; and a berth or agent event appears exactly once
      if the value was set after creation and never otherwise. */
  lemma TimelineReplays(start: PortCall, ops: seq<Op>)
    requires start.status.Draft?
    ensures var c := After(Opened(start), ops);
      && ReplayStatus(Draft, c.timeline) == Some(c.row.status)
      && Count(c.timeline, IsStatus) <= Rank(c.row.status) <= 6
      && ReplayEta(Second(start.eta), c.timeline) == Some(Second(c.row.eta))
      && Count(c.timeline, IsBerth) == (if start.berth.None? && c.row.berth.Some? then 1 else 0)
      && Count(c.timeline, IsAgent) == (if start.agent.None? && c.row.agent.Some? then 1 else 0)
  {
    RunKeepsInv(start, ops);
  }

  /** The timeline only grows, and a refused operation leaves it and the row alone. */
  lemma {:induction false} TimelineIsAppendOnly(c: Call, ops: seq<Op>, n: nat)
    requires n <= |ops|
    ensures After(c, ops[..n]).timeline <= After(c, ops).timeline
    ensures n < |ops| && !Do(After(c, ops[..n]), ops[n]).1 ==> After(c, ops[..n + 1]) == After(c, ops[..n])
    decreases |ops|
  {
    if n < |ops| {
      TimelineIsAppendOnly(c, ops[..|ops| - 1], n);
      assert ops[..|ops| - 1][..n] == ops[..n];
      assert ops[..n + 1][..n] == ops[..n];
    } else {
      assert ops[..n] == ops;
    }
  }
}
