/** The port call service on one row and its timeline, updated in place. */
module PortCalls {
  import opened Wrappers
  import opened PortCallSpec

  class PortCallService {
    var row: PortCall
    var timeline: seq<Event>
    /** The row as it was created. */
    ghost const created: PortCall

    function View(): Call
      reads this
    {
      Call(row, timeline)
    }

    /** The timeline replays from the created row to the current one. */
    ghost predicate Valid()
      reads this
    {
      Inv(created, View())
    }

    constructor (eta: Option<int>, etd: Option<int>, berth: Option<string>, terminal: Option<string>,
        agent: Option<string>)
      ensures Valid()
      ensures View() == Call(PortCall(Draft, eta, etd, None, None, berth, terminal, agent), [Created])
    {
      row := PortCall(Draft, eta, etd, None, None, berth, terminal, agent);
      timeline := [Created];
      created := PortCall(Draft, eta, etd, None, None, berth, terminal, agent);
      new;
      RunKeepsInv(created, []);
    }

    /** Searches the transition table. */
    static method ValidateStatusTransition(from: Status, to: Status) returns (ok: bool)
      ensures ok == Legal(from, to)
    {
      var allowed := Allowed(from);
      for i := 0 to |allowed|
        invariant to !in allowed[..i]
      {
        if allowed[i] == to {
          return true;
        }
      }
      ok := false;
    }

    method UpdateWithUser(i: Input) returns (ok: bool)
      requires Valid()
      modifies this
      ensures Valid()
      ensures (View(), ok) == DoUpdate(old(View()), i)
    {
      UpdateKeepsInv(created, View(), i);
      if i.status.Some? {
        ok := ValidateStatusTransition(row.status, i.status.value);
        if !ok {
          return false;
        }
      }
      var existing := row;
      row := Overlay(row, i);
      CreateUpdateTimelineEvents(existing, row, i);
      ok := true;
    }

    method CreateUpdateTimelineEvents(prev: PortCall, now: PortCall, i: Input)
      modifies this`timeline
      ensures timeline == old(timeline) + Events(prev, now, i)
    {
      if i.status.Some? && prev.status != now.status {
        timeline := timeline + [StatusChanged(prev.status, now.status)];
      }
      assert timeline == old(timeline) + StatusPart(prev, now, i);
      if i.berth.Some? && prev.berth.None? && now.berth.Some? {
        timeline := timeline + [BerthConfirmed(now.berth.value)];
      }
      assert timeline == old(timeline) + (StatusPart(prev, now, i) + BerthPart(prev, now, i));
      if i.eta.Some? && (prev.eta.None? || prev.eta != now.eta) {
        timeline := timeline + [EtaUpdated(Second(prev.eta), Second(now.eta))];
      }
      assert timeline == old(timeline) + (StatusPart(prev, now, i) + BerthPart(prev, now, i) + EtaPart(prev, now, i));
      if i.agent.Some? && prev.agent.None? && now.agent.Some? {
        timeline := timeline + [AgentAssigned(now.agent.value)];
      }
    }

    method ChangeStatusTo(to: Status, now: int) returns (ok: bool)
      requires Valid()
      modifies this
      ensures Valid()
      ensures (View(), ok) == Do(old(View()), ChangeStatus(to, now))
    {
      var input := NO_INPUT.(status := Some(to));
      match to {
        case Arrived => input := input.(ata := Some(now));
        case Departed => input := input.(atd := Some(now));
        case _ =>
      }
      ok := UpdateWithUser(input);
    }

    method ConfirmBerthAt(name: string, term: string) returns (ok: bool)
      requires Valid()
      modifies this
      ensures Valid()
      ensures (View(), ok) == Do(old(View()), ConfirmBerth(name, term)) && ok
    {
      ok := UpdateWithUser(NO_INPUT.(berth := Some(name), terminal := Some(term)));
    }

    method AssignAgentTo(agentId: string) returns (ok: bool)
      requires Valid()
      modifies this
      ensures Valid()
      ensures (View(), ok) == Do(old(View()), AssignAgent(agentId)) && ok
    {
      ok := UpdateWithUser(NO_INPUT.(agent := Some(agentId)));
    }

    method AddTimelineNote(text: string)
      requires Valid()
      modifies this`timeline
      ensures Valid()
      ensures (View(), true) == Do(old(View()), AddNote(text))
    {
      StepKeepsInv(created, View(), AddNote(text));
      timeline := timeline + [NoteAdded(text)];
    }
  }
}
