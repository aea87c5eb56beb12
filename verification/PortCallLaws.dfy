/** What each port call operation accepts, which columns it writes, and what it appends to the timeline, in the
    columns' own terms; and what a run leaves of the actual times. */
module PortCallLaws {
  import opened Wrappers
  import opened PortCallSpec

  /** The edges of the transition table, all eleven of them. */
  lemma TableLaw(a: Status, b: Status)
    ensures Legal(a, b) <==> (a, b) in {
      (Draft, Planned), (Planned, Confirmed), (Confirmed, Arrived), (Arrived, Alongside), (Alongside, Departed),
      (Departed, Completed), (Draft, Cancelled), (Planned, Cancelled), (Confirmed, Cancelled), (Arrived, Cancelled),
      (Alongside, Cancelled)}
  {
  }

  /** A given value replaces the column's. */
  predicate Replaced<T(==)>(now: Option<T>, was: Option<T>, given: Option<T>) {
    (given.Some? ==> now == given) && (given.None? ==> now == was)
  }

  /** A plain update writes exactly the columns given. */
  lemma UpdateLaw(c: Call, i: Input)
    ensures var (t, ok) := Do(c, Update(i));
      && (ok <==> i.status.None? || Legal(c.row.status, i.status.value))
      && (!ok ==> t == c)
      && (ok ==>
            && t.row.status == (if i.status.Some? then i.status.value else c.row.status)
            && Replaced(t.row.eta, c.row.eta, i.eta) && Replaced(t.row.etd, c.row.etd, i.etd)
            && Replaced(t.row.ata, c.row.ata, i.ata) && Replaced(t.row.atd, c.row.atd, i.atd)
            && Replaced(t.row.berth, c.row.berth, i.berth) && Replaced(t.row.terminal, c.row.terminal, i.terminal)
            && Replaced(t.row.agent, c.row.agent, i.agent))
  {
  }

  function Seconds(t: Option<int>): Option<int> {
    if t.Some? then Some(t.value / 1_000_000_000) else None
  }

  /** What an accepted update appends, in order: the status step when the status changes, the berth when it is the
      first, the arrival estimates in seconds when the estimate changes, and the agent when it is the first. */
  lemma EventLaw(c: Call, i: Input)
    requires Do(c, Update(i)).1
    ensures var w := c.row;
      var status :=
        if i.status.Some? && i.status.value != w.status then [StatusChanged(w.status, i.status.value)] else [];
      var berth := if i.berth.Some? && w.berth == None then [BerthConfirmed(i.berth.value)] else [];
      var eta := if i.eta.Some? && i.eta != w.eta then [EtaUpdated(Seconds(w.eta), Seconds(i.eta))] else [];
      var agent := if i.agent.Some? && w.agent == None then [AgentAssigned(i.agent.value)] else [];
      Do(c, Update(i)).0.timeline == c.timeline + (status + berth + eta + agent)
  {
    PartsLaw(c.row, i);
  }

  lemma PartsLaw(w: PortCall, i: Input)
    ensures var n := Overlay(w, i);
      && StatusPart(w, n, i) == (if i.status.Some? && i.status.value != w.status
                                 then [StatusChanged(w.status, i.status.value)] else [])
      && BerthPart(w, n, i) == (if i.berth.Some? && w.berth == None then [BerthConfirmed(i.berth.value)] else [])
      && EtaPart(w, n, i) == (if i.eta.Some? && i.eta != w.eta
                              then [EtaUpdated(Seconds(w.eta), Seconds(i.eta))] else [])
      && AgentPart(w, n, i) == (if i.agent.Some? && w.agent == None then [AgentAssigned(i.agent.value)] else [])
  {
  }

  /** An arrival is stored as the actual arrival time, a departure as the actual departure time; a change to any other
      status writes neither, and no change of status writes anything else. */
  lemma ChangeStatusLaw(c: Call, to: Status, at: int)
    ensures var (t, ok) := Do(c, ChangeStatus(to, at)); var w := c.row;
      && (ok <==> Legal(w.status, to)) && (!ok ==> t == c)
      && (ok && to == Arrived ==>
            t.row == PortCall(Arrived, w.eta, w.etd, Some(at), w.atd, w.berth, w.terminal, w.agent))
      && (ok && to == Departed ==>
            t.row == PortCall(Departed, w.eta, w.etd, w.ata, Some(at), w.berth, w.terminal, w.agent))
      && (ok && to != Arrived && to != Departed ==>
            t.row == PortCall(to, w.eta, w.etd, w.ata, w.atd, w.berth, w.terminal, w.agent))
      && (ok ==> t.timeline == c.timeline + [StatusChanged(w.status, to)])
  {
    if Legal(c.row.status, to) {
      TableLaw(c.row.status, to);
      var i := InputOf(ChangeStatus(to, at));
      assert Events(c.row, Overlay(c.row, i), i) == [StatusChanged(c.row.status, to)];
    }
  }

  /** Confirming a berth writes the berth and its terminal and nothing else, and is never refused; the first one is
      logged. */
  lemma ConfirmBerthLaw(c: Call, name: string, term: string)
    ensures var (t, ok) := Do(c, ConfirmBerth(name, term)); var w := c.row;
      && ok && t.row == PortCall(w.status, w.eta, w.etd, w.ata, w.atd, Some(name), Some(term), w.agent)
      && t.timeline == c.timeline + if w.berth == None then [BerthConfirmed(name)] else []
  {
    var i := InputOf(ConfirmBerth(name, term));
    assert Events(c.row, Overlay(c.row, i), i) == if c.row.berth == None then [BerthConfirmed(name)] else [];
  }

  lemma AssignAgentLaw(c: Call, agentId: string)
    ensures var (t, ok) := Do(c, AssignAgent(agentId)); var w := c.row;
      && ok && t.row == PortCall(w.status, w.eta, w.etd, w.ata, w.atd, w.berth, w.terminal, Some(agentId))
      && t.timeline == c.timeline + if w.agent == None then [AgentAssigned(agentId)] else []
  {
    var i := InputOf(AssignAgent(agentId));
    assert Events(c.row, Overlay(c.row, i), i) == if c.row.agent == None then [AgentAssigned(agentId)] else [];
  }

  lemma AddNoteLaw(c: Call, text: string)
    ensures Do(c, AddNote(text)) == (Call(c.row, c.timeline + [NoteAdded(text)]), true)
  {
  }

  // ---- runs -------------------------------------------------------------------------------

  /** The n-th operation of a run changes the status to one at a time, and is accepted. */
  ghost predicate ReachesAt(start: PortCall, ops: seq<Op>, n: int, to: Status, at: int) {
    0 <= n < |ops| && ops[n] == ChangeStatus(to, at) && Do(After(Opened(start), ops[..n]), ops[n]).1
  }

  /** No plain update gives an actual time. */
  predicate TimesByStatus(ops: seq<Op>) {
    forall n :: 0 <= n < |ops| && ops[n].Update? ==> ops[n].input.ata == None && ops[n].input.atd == None
  }

  lemma ReachesSnoc(start: PortCall, ops: seq<Op>, n: int, to: Status, at: int)
    requires ops != []
    ensures ReachesAt(start, ops, n, to, at) <==>
      || ReachesAt(start, ops[..|ops| - 1], n, to, at)
      || (n == |ops| - 1 && ops[n] == ChangeStatus(to, at) && Do(After(Opened(start), ops[..n]), ops[n]).1)
  {
    if 0 <= n < |ops| - 1 {
      assert ops[..|ops| - 1][..n] == ops[..n];
    }
  }

  lemma LaterStatus(c: Call, op: Op)
    ensures Rank(c.row.status) <= Rank(Do(c, op).0.row.status)
    ensures op.ChangeStatus? && Do(c, op).1 ==>
      Do(c, op).0.row.status == op.to && Rank(c.row.status) < Rank(op.to)
  {
    if op.ChangeStatus? {
      ChangeStatusLaw(c, op.to, op.at);
      TableLaw(c.row.status, op.to);
    } else if op.Update? && op.input.status.Some? {
      TableLaw(c.row.status, op.input.status.value);
    }
  }

  /** In every run the actual arrival is the time of its accepted change to arrived, and the actual departure that of
      its accepted change to departed, as long as no plain update gives one; and neither is set otherwise. */
  lemma {:induction false} ActualTimesAreChanges(start: PortCall, ops: seq<Op>, at: int)
    requires start.ata == None && start.atd == None && TimesByStatus(ops)
    ensures var c := After(Opened(start), ops);
      && (c.row.ata == Some(at) <==> exists n :: ReachesAt(start, ops, n, Arrived, at))
      && (c.row.atd == Some(at) <==> exists n :: ReachesAt(start, ops, n, Departed, at))
      && (c.row.ata.Some? ==> Rank(c.row.status) >= Rank(Arrived))
      && (c.row.atd.Some? ==> Rank(c.row.status) >= Rank(Departed))
  {
    if ops != [] {
      var init, op := ops[..|ops| - 1], ops[|ops| - 1];
      var c := After(Opened(start), init);
      assert TimesByStatus(init);
      ActualTimesAreChanges(start, init, at);
      forall n, to ensures ReachesAt(start, ops, n, to, at) <==>
          ReachesAt(start, init, n, to, at) || (n == |ops| - 1 && op == ChangeStatus(to, at) && Do(c, op).1) {
        ReachesSnoc(start, ops, n, to, at);
      }
      LaterStatus(c, op);
      assert op.ChangeStatus? ==> (ReachesAt(start, ops, |ops| - 1, op.to, op.at) <==> Do(c, op).1);
      match op
      case Update(i) => UpdateLaw(c, i);
      case ChangeStatus(to, when) => ChangeStatusLaw(c, to, when);
      case ConfirmBerth(name, term) => ConfirmBerthLaw(c, name, term);
      case AssignAgent(a) => AssignAgentLaw(c, a);
      case AddNote(text) => AddNoteLaw(c, text);
    }
  }
}
