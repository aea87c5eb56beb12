/** The hub's bookkeeping as a value: the clients it has seen, the three secondary indexes, the
    channel index and the subscription counter. The class in Hub.dfy is proved against it. */
module HubState {

  /** The connection states of a client; `Connected` is exactly "in the hub's client map". */
  datatype Phase = Connecting | Connected | Disconnected

  datatype Member = Member(phase: Phase, user: string, org: string, ws: string, subs: set<string>)

  type Index = map<string, set<string>>

  /** `members` holds every client created so far by its id; ids are never reused. */
  datatype State = State(
    members: map<string, Member>,
    users: Index,
    orgs: Index,
    workspaces: Index,
    channels: Index,
    active: int)

  datatype Step =
    | Create(id: string, user: string, org: string, ws: string)
    | Register(rid: string)
    | Unregister(uid: string)
    | Subscribe(sid: string, ch: string)
    | Unsubscribe(xid: string, xch: string)

  datatype Event = Event(kind: string, org: string, ws: string, users: seq<string>, entityType: string,
      entityId: string)

  const EMPTY := State(map[], map[], map[], map[], map[], 0)

  // ---- index operations -------------------------------------------------------------------

  function At(m: Index, k: string): set<string> {
    if k in m then m[k] else {}
  }

  function Put(m: Index, k: string, id: string): Index {
    m[k := At(m, k) + {id}]
  }

  /** Deletes an id from a bucket and the bucket when it becomes empty. */
  function Take(m: Index, k: string, id: string): Index {
    if k !in m then m
    else if m[k] - {id} == {} then m - {k}
    else m[k := m[k] - {id}]
  }

  /** Takes an id out of every bucket in ks. */
  function TakeAll(m: Index, ks: set<string>, id: string): Index {
    map k | k in m && !(k in ks && m[k] - {id} == {}) :: if k in ks then m[k] - {id} else m[k]
  }

  // ---- steps ------------------------------------------------------------------------------

  predicate Enabled(s: State, step: Step) {
    match step
    case Create(id, _, _, _) => id !in s.members
    case Register(id) => id in s.members && s.members[id].phase.Connecting?
    case Unregister(id) => id in s.members
    case Subscribe(id, _) => id in s.members
    case Unsubscribe(id, _) => id in s.members
  }

  function Apply(s: State, step: Step): State
    requires Enabled(s, step)
  {
    match step
    case Create(id, user, org, ws) =>
      s.(members := s.members[id := Member(Connecting, user, org, ws, {})])
    case Register(id) =>
      var c := s.members[id];
      s.(members := s.members[id := c.(phase := Connected)],
         users := Put(s.users, c.user, id),
         orgs := if c.org != "" then Put(s.orgs, c.org, id) else s.orgs,
         workspaces := if c.ws != "" then Put(s.workspaces, c.ws, id) else s.workspaces)
    case Unregister(id) =>
      var c := s.members[id];
      if !c.phase.Connected? then s
      else s.(members := s.members[id := c.(phase := Disconnected)],
              channels := TakeAll(s.channels, c.subs, id),
              active := s.active - |c.subs * s.channels.Keys|,
              users := Take(s.users, c.user, id),
              orgs := Take(s.orgs, c.org, id),
              workspaces := Take(s.workspaces, c.ws, id))
    case Subscribe(id, ch) =>
      s.(members := s.members[id := s.members[id].(subs := s.members[id].subs + {ch})],
         channels := Put(s.channels, ch, id),
         active := s.active + 1)
    case Unsubscribe(id, ch) =>
      s.(members := s.members[id := s.members[id].(subs := s.members[id].subs - {ch})],
         channels := Take(s.channels, ch, id),
         active := s.active - 1)
  }

  predicate Runs(s: State, steps: seq<Step>)
    decreases |steps|
  {
    steps == [] || (Enabled(s, steps[0]) && Runs(Apply(s, steps[0]), steps[1..]))
  }

  function After(s: State, steps: seq<Step>): State
    requires Runs(s, steps)
    decreases |steps|
  {
    if steps == [] then s else After(Apply(s, steps[0]), steps[1..])
  }

  // ---- the invariant ----------------------------------------------------------------------

  predicate IsConnected(s: State, id: string) {
    id in s.members && s.members[id].phase.Connected?
  }

  ghost predicate NoEmptyBucket(m: Index) {
    forall k :: k in m ==> m[k] != {}
  }

  datatype Field = User | Organization | Workspace

  function Key(c: Member, f: Field): string {
    match f
    case User => c.user
    case Organization => c.org
    case Workspace => c.ws
  }

  /** The key a client is filed under; organizations and workspaces only when non-empty. */
  predicate FiledUnder(c: Member, f: Field, k: string) {
    Key(c, f) == k && (f.User? || k != "")
  }

  /** A secondary index holds, under each key, exactly the registered clients filed there. */
  ghost predicate Mirrors(m: Index, members: map<string, Member>, f: Field) {
    forall k, id :: id in At(m, k) <==> id in members && members[id].phase.Connected? && FiledUnder(members[id], f, k)
  }

  ghost predicate IndexesExact(s: State) {
    && Mirrors(s.users, s.members, User)
    && Mirrors(s.orgs, s.members, Organization)
    && Mirrors(s.workspaces, s.members, Workspace)
  }

  /** Until a client is unregistered the channel index agrees with its own subscription set. */
  ghost predicate ChannelsExact(s: State) {
    forall ch, id :: id in s.members && !s.members[id].phase.Disconnected? ==>
      (id in At(s.channels, ch) <==> ch in s.members[id].subs)
  }

  ghost predicate Known(s: State) {
    forall ch, id :: id in At(s.channels, ch) ==> id in s.members
  }

  ghost predicate Inv(s: State) {
    && IndexesExact(s) && ChannelsExact(s) && Known(s)
    && NoEmptyBucket(s.users) && NoEmptyBucket(s.orgs) && NoEmptyBucket(s.workspaces) && NoEmptyBucket(s.channels)
  }

  lemma TakeAt(m: Index, k: string, id: string)
    requires NoEmptyBucket(m)
    ensures NoEmptyBucket(Take(m, k, id))
    ensures forall j, x :: x in At(Take(m, k, id), j) <==> x in At(m, j) && !(j == k && x == id)
  {
  }

  lemma TakeAllAt(m: Index, ks: set<string>, id: string)
    requires NoEmptyBucket(m)
    ensures NoEmptyBucket(TakeAll(m, ks, id))
    ensures forall j, x :: x in At(TakeAll(m, ks, id), j) <==> x in At(m, j) && !(j in ks && x == id)
  {
  }

  lemma PutAt(m: Index, k: string, id: string)
    requires NoEmptyBucket(m)
    ensures NoEmptyBucket(Put(m, k, id))
    ensures forall j, x :: x in At(Put(m, k, id), j) <==> x in At(m, j) || (j == k && x == id)
  {
  }

  /** The index after a registration, written as the source does. */
  function Filed(m: Index, f: Field, c: Member, id: string): Index {
    if f.User? || Key(c, f) != "" then Put(m, Key(c, f), id) else m
  }

  lemma RegisterFiles(m: Index, members: map<string, Member>, f: Field, id: string)
    requires NoEmptyBucket(m) && Mirrors(m, members, f) && id in members
    ensures var c := members[id].(phase := Connected);
      NoEmptyBucket(Filed(m, f, c, id)) && Mirrors(Filed(m, f, c, id), members[id := c], f)
  {
    PutAt(m, Key(members[id], f), id);
  }

  lemma UnregisterRemoves(m: Index, members: map<string, Member>, f: Field, id: string)
    requires NoEmptyBucket(m) && Mirrors(m, members, f) && id in members
    ensures var c := members[id];
      var n := Take(m, Key(c, f), id);
      NoEmptyBucket(n) && Mirrors(n, members[id := c.(phase := Disconnected)], f)
  {
    TakeAt(m, Key(members[id], f), id);
  }

  /** A member's phase and keys are all the secondary indexes look at. */
  lemma SameKeysMirror(m: Index, members: map<string, Member>, f: Field, id: string, c: Member)
    requires Mirrors(m, members, f)
    requires
      if id in members then c.phase == members[id].phase && Key(c, f) == Key(members[id], f)
      else !c.phase.Connected?
    ensures Mirrors(m, members[id := c], f)
  {
  }

  lemma UnregisterKeepsInv(s: State, id: string)
    requires Inv(s) && id in s.members
    ensures Inv(Apply(s, Unregister(id)))
  {
    var c := s.members[id];
    if c.phase.Connected? {
      UnregisterRemoves(s.users, s.members, User, id);
      UnregisterRemoves(s.orgs, s.members, Organization, id);
      UnregisterRemoves(s.workspaces, s.members, Workspace, id);
      UnregisterClearsChannels(s, id);
    }
  }

  lemma UnregisterClearsChannels(s: State, id: string)
    requires Inv(s) && IsConnected(s, id)
    ensures var t := Apply(s, Unregister(id));
      ChannelsExact(t) && Known(t) && NoEmptyBucket(t.channels) && forall ch :: id !in At(t.channels, ch)
  {
    var t := Apply(s, Unregister(id));
    TakeAllAt(s.channels, s.members[id].subs, id);
    forall ch ensures id !in At(t.channels, ch) {
      assert id in At(s.channels, ch) ==> ch in s.members[id].subs;
    }
    forall ch, x | x in t.members && !t.members[x].phase.Disconnected?
      ensures x in At(t.channels, ch) <==> ch in t.members[x].subs
    {
      assert x != id && t.members[x] == s.members[x];
      assert x in At(t.channels, ch) <==> x in At(s.channels, ch);
    }
  }

  lemma RegisterKeepsInv(s: State, id: string)
    requires Inv(s) && Enabled(s, Register(id))
    ensures Inv(Apply(s, Register(id)))
  {
    RegisterFiles(s.users, s.members, User, id);
    RegisterFiles(s.orgs, s.members, Organization, id);
    RegisterFiles(s.workspaces, s.members, Workspace, id);
  }

  lemma SubscriptionKeepsChannels(s: State, id: string, ch: string)
    requires Inv(s) && id in s.members
    ensures var t := Apply(s, Subscribe(id, ch)); ChannelsExact(t) && Known(t) && NoEmptyBucket(t.channels)
    ensures var t := Apply(s, Unsubscribe(id, ch)); ChannelsExact(t) && Known(t) && NoEmptyBucket(t.channels)
  {
    PutAt(s.channels, ch, id);
    TakeAt(s.channels, ch, id);
  }

  lemma SubscriptionKeepsInv(s: State, id: string, ch: string)
    requires Inv(s) && id in s.members
    ensures Inv(Apply(s, Subscribe(id, ch))) && Inv(Apply(s, Unsubscribe(id, ch)))
  {
    SubscriptionKeepsChannels(s, id, ch);
    forall c: Member | c == s.members[id].(subs := c.subs)
      ensures Mirrors(s.users, s.members[id := c], User)
      ensures Mirrors(s.orgs, s.members[id := c], Organization)
      ensures Mirrors(s.workspaces, s.members[id := c], Workspace)
    {
      SameKeysMirror(s.users, s.members, User, id, c);
      SameKeysMirror(s.orgs, s.members, Organization, id, c);
      SameKeysMirror(s.workspaces, s.members, Workspace, id, c);
    }
  }

  lemma CreateKeepsInv(s: State, step: Step)
    requires Inv(s) && step.Create? && Enabled(s, step)
    ensures Inv(Apply(s, step))
  {
    var c := Member(Connecting, step.user, step.org, step.ws, {});
    SameKeysMirror(s.users, s.members, User, step.id, c);
    SameKeysMirror(s.orgs, s.members, Organization, step.id, c);
    SameKeysMirror(s.workspaces, s.members, Workspace, step.id, c);
  }

  lemma StepKeepsInv(s: State, step: Step)
    requires Inv(s) && Enabled(s, step)
    ensures Inv(Apply(s, step))
  {
    match step
    case Create(_, _, _, _) => CreateKeepsInv(s, step);
    case Register(id) => RegisterKeepsInv(s, id);
    case Unregister(id) => UnregisterKeepsInv(s, id);
    case Subscribe(id, ch) => SubscriptionKeepsInv(s, id, ch);
    case Unsubscribe(id, ch) => SubscriptionKeepsInv(s, id, ch);
  }

  lemma {:induction false} RunKeepsInv(s: State, steps: seq<Step>)
    requires Inv(s) && Runs(s, steps)
    ensures Inv(After(s, steps))
    decreases |steps|
  {
    if steps != [] {
      StepKeepsInv(s, steps[0]);
      RunKeepsInv(Apply(s, steps[0]), steps[1..]);
    }
  }

  /** The same, clause by clause, for every reachable hub. */
  lemma EveryReachableHub(steps: seq<Step>, id: string, k: string)
    requires Runs(EMPTY, steps)
    ensures var s := After(EMPTY, steps);
      && (id in At(s.users, k) <==> IsConnected(s, id) && s.members[id].user == k)
      && (id in At(s.orgs, k) <==> IsConnected(s, id) && k != "" && s.members[id].org == k)
      && (id in At(s.workspaces, k) <==> IsConnected(s, id) && k != "" && s.members[id].ws == k)
      && (IsConnected(s, id) ==> (id in At(s.channels, k) <==> k in s.members[id].subs))
      && (k in s.users ==> s.users[k] != {}) && (k in s.orgs ==> s.orgs[k] != {})
      && (k in s.workspaces ==> s.workspaces[k] != {}) && (k in s.channels ==> s.channels[k] != {})
  {
    RunKeepsInv(EMPTY, steps);
  }

  // ---- routing ----------------------------------------------------------------------------

  function EntityChannel(e: Event): string {
    e.entityType + ":" + e.entityId
  }

  /** The ids the indexes select for an event, branch by branch. */
  function Targets(s: State, e: Event): set<string> {
    if e.users != [] then UserTargets(s.users, e.users)
    else
      (if e.ws != "" then At(s.workspaces, e.ws) else if e.org != "" then At(s.orgs, e.org) else {})
      + Subscribers(s, e.kind, e, true)
      + (if e.entityType != "" && e.entityId != "" then Subscribers(s, EntityChannel(e), e, false) else {})
  }

  function UserTargets(users: Index, wanted: seq<string>): set<string> {
    set u, id | u in wanted && id in At(users, u) :: id
  }

  lemma UserTargetsSnoc(users: Index, wanted: seq<string>, u: string)
    ensures UserTargets(users, wanted + [u]) == UserTargets(users, wanted) + At(users, u)
  {
    forall id ensures id in UserTargets(users, wanted + [u]) <==> id in UserTargets(users, wanted) + At(users, u) {
      if id in At(users, u) {
        assert u in wanted + [u];
      }
      if id in UserTargets(users, wanted) {
        var v :| v in wanted && id in At(users, v);
        assert v in wanted + [u];
      }
    }
  }

  /** The registered subscribers of one channel that lie in the event's scope; the workspace is
      part of the scope for the event-type channel only. */
  function Subscribers(s: State, ch: string, e: Event, checkWorkspace: bool): set<string> {
    set id | id in At(s.channels, ch) && Eligible(s, id, e, checkWorkspace)
  }

  predicate Eligible(s: State, id: string, e: Event, checkWorkspace: bool) {
    IsConnected(s, id) && (if checkWorkspace then InScope(s.members[id], e) else InOrg(s.members[id], e))
  }

  predicate InOrg(c: Member, e: Event) {
    e.org == "" || c.org == e.org
  }

  predicate InScope(c: Member, e: Event) {
    InOrg(c, e) && (e.ws == "" || c.ws == e.ws)
  }

  /** Who an event is meant for, looking only at one client's own fields. */
  predicate Wants(c: Member, e: Event) {
    if |e.users| > 0 then c.user in e.users
    else
      || (e.ws != "" && c.ws == e.ws)
      || (e.ws == "" && e.org != "" && c.org == e.org)
      || (e.kind in c.subs && InScope(c, e))
      || (e.entityType != "" && e.entityId != "" && EntityChannel(e) in c.subs && InOrg(c, e))
  }

  /** The brute-force scan over all registered clients. */
  function Scan(s: State, e: Event): set<string> {
    set id | id in s.members && s.members[id].phase.Connected? && Wants(s.members[id], e)
  }

  lemma RoutingMatchesScan(s: State, e: Event)
    requires Inv(s)
    ensures Targets(s, e) == Scan(s, e)
  {
    forall id ensures id in Targets(s, e) <==> id in Scan(s, e) {
      if e.users != [] {
        if id in Scan(s, e) {
          assert id in At(s.users, s.members[id].user);
        }
      }
    }
  }

  /** In every reachable hub and for every event, index routing is the scan. */
  lemma RoutingMatchesScanInEveryRun(steps: seq<Step>, e: Event)
    requires Runs(EMPTY, steps)
    ensures Targets(After(EMPTY, steps), e) == Scan(After(EMPTY, steps), e)
  {
    RunKeepsInv(EMPTY, steps);
    RoutingMatchesScan(After(EMPTY, steps), e);
  }

  // ---- the subscription counter -----------------------------------------------------------

  /** The subscriptions the channel index holds, as (channel, client) pairs. */
  function Pairs(m: Index): set<(string, string)> {
    set ch, id | ch in m && id in m[ch] :: (ch, id)
  }

  /** How far the counter has drifted from the number of subscriptions held. */
  function Drift(s: State): int {
    s.active - |Pairs(s.channels)|
  }

  /** A step that adjusts the counter although it does not change the channel index. */
  function Redundant(s: State, step: Step): int {
    match step
    case Subscribe(id, ch) => if id in At(s.channels, ch) then 1 else 0
    case Unsubscribe(id, ch) => if id in At(s.channels, ch) then 0 else -1
    case _ => 0
  }

  lemma PairsAt(m: Index, ch: string, id: string)
    ensures (ch, id) in Pairs(m) <==> id in At(m, ch)
  {
  }

  lemma PairsPut(m: Index, ch: string, id: string)
    ensures Pairs(Put(m, ch, id)) == Pairs(m) + {(ch, id)}
  {
    forall c, x ensures (c, x) in Pairs(Put(m, ch, id)) <==> (c, x) in Pairs(m) + {(ch, id)} {
      PairsAt(Put(m, ch, id), c, x);
      PairsAt(m, c, x);
    }
  }

  lemma PairsTake(m: Index, ch: string, id: string)
    requires NoEmptyBucket(m)
    ensures Pairs(Take(m, ch, id)) == Pairs(m) - {(ch, id)}
  {
    TakeAt(m, ch, id);
    forall c, x ensures (c, x) in Pairs(Take(m, ch, id)) <==> (c, x) in Pairs(m) - {(ch, id)} {
      PairsAt(Take(m, ch, id), c, x);
      PairsAt(m, c, x);
    }
  }

  function Row(chs: set<string>, id: string): set<(string, string)> {
    set ch | ch in chs :: (ch, id)
  }

  lemma {:induction false} RowSize(chs: set<string>, id: string)
    ensures |Row(chs, id)| == |chs|
  {
    if chs != {} {
      var ch :| ch in chs;
      RowSize(chs - {ch}, id);
      assert Row(chs, id) == Row(chs - {ch}, id) + {(ch, id)};
    } else {
      assert Row(chs, id) == {};
    }
  }

  lemma PairsTakeAll(m: Index, chs: set<string>, id: string)
    requires NoEmptyBucket(m)
    ensures Pairs(TakeAll(m, chs, id)) == Pairs(m) - Row(chs, id)
  {
    TakeAllAt(m, chs, id);
    forall c, x ensures (c, x) in Pairs(TakeAll(m, chs, id)) <==> (c, x) in Pairs(m) - Row(chs, id) {
      PairsAt(TakeAll(m, chs, id), c, x);
      PairsAt(m, c, x);
    }
  }

  lemma UnregisterKeepsDrift(s: State, id: string)
    requires Inv(s) && id in s.members
    ensures Drift(Apply(s, Unregister(id))) == Drift(s)
  {
    var c := s.members[id];
    if c.phase.Connected? {
      PairsTakeAll(s.channels, c.subs, id);
      RowSize(c.subs, id);
      forall ch | ch in c.subs ensures ch in s.channels.Keys && (ch, id) in Pairs(s.channels) {
        assert id in At(s.channels, ch);
      }
      assert c.subs * s.channels.Keys == c.subs;
      assert Row(c.subs, id) <= Pairs(s.channels);
    }
  }

  lemma SizePut(m: Index, ch: string, id: string)
    ensures |Pairs(Put(m, ch, id))| == |Pairs(m)| + if id in At(m, ch) then 0 else 1
  {
    PairsPut(m, ch, id);
    PairsAt(m, ch, id);
    if id in At(m, ch) {
      assert Pairs(m) + {(ch, id)} == Pairs(m);
    }
  }

  lemma SizeTake(m: Index, ch: string, id: string)
    requires NoEmptyBucket(m)
    ensures |Pairs(Take(m, ch, id))| == |Pairs(m)| - if id in At(m, ch) then 1 else 0
  {
    PairsTake(m, ch, id);
    PairsAt(m, ch, id);
    if id !in At(m, ch) {
      assert Pairs(m) - {(ch, id)} == Pairs(m);
    }
  }

  lemma StepDrift(s: State, step: Step)
    requires Inv(s) && Enabled(s, step)
    ensures Drift(Apply(s, step)) == Drift(s) + Redundant(s, step)
  {
    match step
    case Create(_, _, _, _) =>
    case Register(_) =>
    case Unregister(id) => UnregisterKeepsDrift(s, id);
    case Subscribe(id, ch) => SizePut(s.channels, ch, id);
    case Unsubscribe(id, ch) => SizeTake(s.channels, ch, id);
  }

  function RedundantTotal(s: State, steps: seq<Step>): int
    requires Runs(s, steps)
    decreases |steps|
  {
    if steps == [] then 0 else Redundant(s, steps[0]) + RedundantTotal(Apply(s, steps[0]), steps[1..])
  }

  /** Over every run the counter is off by exactly the repeated subscribes minus the unsubscribes
      of channels not held, so it is exact iff these balance. */
  lemma {:induction false} CounterDrift(s: State, steps: seq<Step>)
    requires Inv(s) && Runs(s, steps)
    ensures Drift(After(s, steps)) == Drift(s) + RedundantTotal(s, steps)
    decreases |steps|
  {
    if steps != [] {
      StepKeepsInv(s, steps[0]);
      StepDrift(s, steps[0]);
      CounterDrift(Apply(s, steps[0]), steps[1..]);
    }
  }

  lemma CounterExactIff(steps: seq<Step>)
    requires Runs(EMPTY, steps)
    ensures After(EMPTY, steps).active == |Pairs(After(EMPTY, steps).channels)| <==> RedundantTotal(EMPTY, steps) == 0
  {
    CounterDrift(EMPTY, steps);
    assert Pairs(map[]) == {};
  }

  lemma RunCons(s: State, step: Step, rest: seq<Step>)
    requires Enabled(s, step) && Runs(Apply(s, step), rest)
    ensures Runs(s, [step] + rest) && After(s, [step] + rest) == After(Apply(s, step), rest)
  {
    assert ([step] + rest)[1..] == rest && ([step] + rest)[0] == step;
  }

  lemma Conses<T>(a: T, b: T, c: T, d: T)
    ensures [d] + [] == [d] && [c] + [d] == [c, d] && [b] + [c, d] == [b, c, d] && [a] + [b, c, d] == [a, b, c, d]
  {
  }

  lemma RunOf4(s: State, s1: State, s2: State, s3: State, a: Step, b: Step, c: Step, d: Step)
    requires Enabled(s, a) && s1 == Apply(s, a) && Enabled(s1, b) && s2 == Apply(s1, b)
    requires Enabled(s2, c) && s3 == Apply(s2, c) && Enabled(s3, d)
    ensures Runs(s, [a, b, c, d]) && After(s, [a, b, c, d]) == Apply(s3, d)
  {
    Conses(a, b, c, d);
    RunCons(s3, d, []);
    RunCons(s2, c, [d]);
    RunCons(s1, b, [c, d]);
    RunCons(s, a, [b, c, d]);
  }

  /** A client that subscribes twice to one channel is counted twice. */
  lemma RepeatedSubscribeCountsTwice()
    ensures var steps := [Create("c", "u", "", ""), Register("c"), Subscribe("c", "x"), Subscribe("c", "x")];
      Runs(EMPTY, steps) && After(EMPTY, steps).active == 2 && Pairs(After(EMPTY, steps).channels) == {("x", "c")}
  {
    var s1 := Apply(EMPTY, Create("c", "u", "", ""));
    var s2 := Apply(s1, Register("c"));
    var s3 := Apply(s2, Subscribe("c", "x"));
    RunOf4(EMPTY, s1, s2, s3, Create("c", "u", "", ""), Register("c"), Subscribe("c", "x"), Subscribe("c", "x"));
    PairsPut(s2.channels, "x", "c");
    PairsPut(s3.channels, "x", "c");
    assert Pairs(s2.channels) == {};
  }

  // ---- leaked subscriptions ---------------------------------------------------------------

  /** No channel holds a client the hub has unregistered. */
  ghost predicate NoLeak(s: State) {
    forall ch, id :: id in At(s.channels, ch) ==> id in s.members && !s.members[id].phase.Disconnected?
  }

  /** The channel index stays free of unregistered clients iff no such client subscribes. */
  lemma LeakIff(s: State, step: Step)
    requires Inv(s) && NoLeak(s) && Enabled(s, step)
    ensures NoLeak(Apply(s, step)) <==> !(step.Subscribe? && s.members[step.sid].phase.Disconnected?)
  {
    match step
    case Create(_, _, _, _) =>
    case Register(_) =>
    case Unregister(id) => if IsConnected(s, id) { UnregisterLeavesNoLeak(s, id); }
    case Subscribe(id, ch) => SubscribeLeakIff(s, id, ch);
    case Unsubscribe(id, ch) => TakeAt(s.channels, ch, id);
  }

  /** A client removed while a message of its is on its way stays in the channel it then asks for. */
  lemma LateSubscribeLeaks()
    ensures var steps := [Create("c", "u", "", ""), Register("c"), Unregister("c"), Subscribe("c", "x")];
      Runs(EMPTY, steps) && !NoLeak(After(EMPTY, steps))
  {
    var s1 := Apply(EMPTY, Create("c", "u", "", ""));
    var s2 := Apply(s1, Register("c"));
    var s3 := Apply(s2, Unregister("c"));
    RunOf4(EMPTY, s1, s2, s3, Create("c", "u", "", ""), Register("c"), Unregister("c"), Subscribe("c", "x"));
    assert s3.members["c"].phase == Disconnected;
    assert "c" in At(Apply(s3, Subscribe("c", "x")).channels, "x");
  }

  lemma UnregisterLeavesNoLeak(s: State, id: string)
    requires Inv(s) && NoLeak(s) && IsConnected(s, id)
    ensures NoLeak(Apply(s, Unregister(id)))
  {
    UnregisterClearsChannels(s, id);
    TakeAllAt(s.channels, s.members[id].subs, id);
  }

  lemma SubscribeLeakIff(s: State, id: string, ch: string)
    requires Inv(s) && NoLeak(s) && id in s.members
    ensures NoLeak(Apply(s, Subscribe(id, ch))) <==> !s.members[id].phase.Disconnected?
  {
    var t := Apply(s, Subscribe(id, ch));
    PutAt(s.channels, ch, id);
    assert id in At(t.channels, ch);
    if !s.members[id].phase.Disconnected? {
      forall c, x | x in At(t.channels, c) ensures x in t.members && !t.members[x].phase.Disconnected? {
        assert x == id || x in At(s.channels, c);
      }
    } else {
      assert t.members[id].phase == s.members[id].phase;
    }
  }

  /** Such an entry is permanent: only the same client's own unsubscribe removes it. */
  lemma {:induction false} LeakIsPermanent(s: State, steps: seq<Step>, id: string, ch: string)
    requires Inv(s) && Runs(s, steps)
    requires id in At(s.channels, ch) && s.members[id].phase.Disconnected?
    requires forall i :: 0 <= i < |steps| ==> steps[i] != Unsubscribe(id, ch)
    ensures id in At(After(s, steps).channels, ch)
    decreases |steps|
  {
    if steps != [] {
      var t := Apply(s, steps[0]);
      StepKeepsInv(s, steps[0]);
      assert id in At(t.channels, ch) by {
        match steps[0]
        case Unregister(u) => if s.members[u].phase.Connected? { TakeAllAt(s.channels, s.members[u].subs, u); }
        case Unsubscribe(x, c) => TakeAt(s.channels, c, x);
        case _ =>
      }
      LeakIsPermanent(t, steps[1..], id, ch);
    }
  }
}
