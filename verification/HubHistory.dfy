/** Who gets an event, told from the clients' own fields and from the history of the hub alone. */
module HubHistory {
  import opened History
  import opened HubState

  /** For every event that names no users, a client is a target exactly when it is connected and is of the event's
      workspace; or, for an event without one, of its organization; or subscribed to the event's kind, within the
      event's organization and workspace; or subscribed to its entity, within the event's organization. */
  lemma TargetIff(s: State, e: Event, id: string)
    requires Inv(s) && e.users == []
    ensures id in Targets(s, e) <==>
      && id in s.members && s.members[id].phase == Connected
      && var c := s.members[id];
      || (e.ws != "" && c.ws == e.ws)
      || (e.ws == "" && e.org != "" && c.org == e.org)
      || (e.kind in c.subs && (e.org == "" || c.org == e.org) && (e.ws == "" || c.ws == e.ws))
      || (e.entityType != "" && e.entityId != "" && e.entityType + ":" + e.entityId in c.subs
          && (e.org == "" || c.org == e.org))
  {
    RoutingMatchesScan(s, e);
  }

  /** An event that names users goes to exactly their connected clients, whatever else it names. */
  lemma UserTargetIff(s: State, e: Event, id: string)
    requires Inv(s) && e.users != []
    ensures id in Targets(s, e) <==>
      id in s.members && s.members[id].phase == Connected && s.members[id].user in e.users
  {
    RoutingMatchesScan(s, e);
  }

  /** No client of another organization gets an organization's event, unless it is of the event's workspace. */
  lemma TenantIsolation(s: State, e: Event, id: string)
    requires Inv(s) && e.users == [] && e.org != "" && id in Targets(s, e)
    ensures s.members[id].org == e.org || (e.ws != "" && s.members[id].ws == e.ws)
  {
    TargetIff(s, e, id);
  }

  // ---- the history ------------------------------------------------------------------------

  lemma {:induction false} RunSnoc(s: State, steps: seq<Step>, last: Step)
    requires Runs(s, steps + [last])
    ensures Runs(s, steps) && Enabled(After(s, steps), last)
    ensures After(s, steps + [last]) == Apply(After(s, steps), last)
    decreases |steps|
  {
    if steps == [] {
      assert steps + [last] == [last] && [last][1..] == [];
    } else {
      assert (steps + [last])[1..] == steps[1..] + [last] && (steps + [last])[0] == steps[0];
      RunSnoc(Apply(s, steps[0]), steps[1..], last);
    }
  }

  /** A client's entry is what it was created with, connected since it was registered, and subscribed as it asked. */
  ghost predicate FollowsCreation(s: State, steps: seq<Step>, id: string) {
    forall user, org, ws :: Create(id, user, org, ws) in steps <==>
      id in s.members && user == s.members[id].user && org == s.members[id].org && ws == s.members[id].ws
  }

  ghost predicate FollowsRegistration(s: State, steps: seq<Step>, id: string) {
    && (id in s.members && s.members[id].phase == Connected <==> Since(steps, Register(id), Unregister(id)))
    && (Register(id) in steps ==> id in s.members && s.members[id].phase != Connecting)
  }

  ghost predicate FollowsSubscriptions(s: State, steps: seq<Step>, id: string) {
    forall ch :: id in s.members && ch in s.members[id].subs <==>
      Since(steps, Subscribe(id, ch), Unsubscribe(id, ch))
  }

  /** One step on one client's entry. */
  function Entry(c: Member, id: string, step: Step): Member {
    match step
    case Register(k) => if k == id then c.(phase := Connected) else c
    case Unregister(k) => if k == id && c.phase.Connected? then c.(phase := Disconnected) else c
    case Subscribe(k, ch) => if k == id then c.(subs := c.subs + {ch}) else c
    case Unsubscribe(k, ch) => if k == id then c.(subs := c.subs - {ch}) else c
    case Create(_, _, _, _) => c
  }

  lemma StepOnEntry(s: State, step: Step, id: string)
    requires Enabled(s, step)
    ensures var t := Apply(s, step);
      && (id in t.members <==> id in s.members || (step.Create? && step.id == id))
      && (id in s.members ==> t.members[id] == Entry(s.members[id], id, step))
      && (id in t.members && id !in s.members ==>
            t.members[id] == Member(Connecting, step.user, step.org, step.ws, {}))
  {
  }

  lemma StepFollowsCreation(s: State, steps: seq<Step>, last: Step, id: string)
    requires Enabled(s, last) && FollowsCreation(s, steps, id)
    ensures FollowsCreation(Apply(s, last), steps + [last], id)
  {
    StepOnEntry(s, last, id);
    forall user, org, ws
      ensures Create(id, user, org, ws) in steps + [last] <==>
        Create(id, user, org, ws) in steps || last == Create(id, user, org, ws)
    {
    }
  }

  lemma StepFollowsRegistration(s: State, steps: seq<Step>, last: Step, id: string)
    requires Enabled(s, last) && FollowsRegistration(s, steps, id)
    ensures FollowsRegistration(Apply(s, last), steps + [last], id)
  {
    StepOnEntry(s, last, id);
    SinceSnoc(steps, last, Register(id), Unregister(id));
  }

  lemma StepFollowsSubscriptions(s: State, steps: seq<Step>, last: Step, id: string)
    requires Enabled(s, last) && FollowsSubscriptions(s, steps, id)
    ensures FollowsSubscriptions(Apply(s, last), steps + [last], id)
  {
    var t := Apply(s, last);
    StepOnEntry(s, last, id);
    forall ch
      ensures id in t.members && ch in t.members[id].subs <==>
        Since(steps + [last], Subscribe(id, ch), Unsubscribe(id, ch))
    {
      SinceSnoc(steps, last, Subscribe(id, ch), Unsubscribe(id, ch));
      assert id in s.members && ch in s.members[id].subs <==> Since(steps, Subscribe(id, ch), Unsubscribe(id, ch));
    }
  }

  lemma {:induction false} HistoryTells(steps: seq<Step>, id: string)
    requires Runs(EMPTY, steps)
    ensures var s := After(EMPTY, steps);
      FollowsCreation(s, steps, id) && FollowsRegistration(s, steps, id) && FollowsSubscriptions(s, steps, id)
    decreases |steps|
  {
    if steps != [] {
      var init, last := steps[..|steps| - 1], steps[|steps| - 1];
      assert steps == init + [last];
      RunSnoc(EMPTY, init, last);
      HistoryTells(init, id);
      StepFollowsCreation(After(EMPTY, init), init, last, id);
      StepFollowsRegistration(After(EMPTY, init), init, last, id);
      StepFollowsSubscriptions(After(EMPTY, init), init, last, id);
    }
  }

  /** In every run an event goes to exactly the clients registered and not unregistered since that were created in
      its workspace; or, when it has none, in its organization; or that subscribed to its kind, or to its entity, and
      have not unsubscribed since, and were created within its organization and, for the kind, its workspace. */
  lemma RoutingFollowsHistory(steps: seq<Step>, e: Event, id: string)
    requires Runs(EMPTY, steps) && e.users == []
    ensures id in Targets(After(EMPTY, steps), e) <==>
      && Since(steps, Register(id), Unregister(id))
      && exists user, org, ws ::
           && Create(id, user, org, ws) in steps
           && var entity := e.entityType + ":" + e.entityId;
           || (e.ws != "" && ws == e.ws)
           || (e.ws == "" && e.org != "" && org == e.org)
           || (Since(steps, Subscribe(id, e.kind), Unsubscribe(id, e.kind))
               && (e.org == "" || org == e.org) && (e.ws == "" || ws == e.ws))
           || (e.entityType != "" && e.entityId != "" && Since(steps, Subscribe(id, entity), Unsubscribe(id, entity))
               && (e.org == "" || org == e.org))
  {
    var s := After(EMPTY, steps);
    RunKeepsInv(EMPTY, steps);
    HistoryTells(steps, id);
    TargetIff(s, e, id);
    if id in s.members {
      var c := s.members[id];
      assert Create(id, c.user, c.org, c.ws) in steps;
    }
  }

  /** An event that names users goes to exactly the clients created for one of them and connected still. */
  lemma UserRoutingFollowsHistory(steps: seq<Step>, e: Event, id: string)
    requires Runs(EMPTY, steps) && e.users != []
    ensures id in Targets(After(EMPTY, steps), e) <==>
      && Since(steps, Register(id), Unregister(id))
      && exists user, org, ws :: Create(id, user, org, ws) in steps && user in e.users
  {
    var s := After(EMPTY, steps);
    RunKeepsInv(EMPTY, steps);
    HistoryTells(steps, id);
    UserTargetIff(s, e, id);
    if id in s.members {
      var c := s.members[id];
      assert Create(id, c.user, c.org, c.ws) in steps;
    }
  }
}
