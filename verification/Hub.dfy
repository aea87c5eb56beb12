/** The hub and its clients, as objects updated in place. */
module Hub {
  // Every method states the new bookkeeping as a step of HubState. `close` and the channel send
  // require an open channel, as the language does, so that no client is closed twice or sent to after
  // its close is part of what is verified here.

  import S = HubState
  import HubHistory

  const SEND_BUFFER := 256

  /** A queued message: the event of broadcast n, or a heartbeat. */
  datatype Message = Broadcast(n: nat) | Heartbeat

  /** A client's send buffer never holds more than its capacity. */
  type Buffer = ms: seq<Message> | |ms| <= SEND_BUFFER

  function Numbers(m: Message): seq<nat> {
    if m.Broadcast? then [m.n] else []
  }

  /** A connected client. */
  class Client {
    const ID: string
    const UserID: string
    const OrganizationID: string
    const WorkspaceID: string
    var State: S.Phase
    var Subscriptions: set<string>
    var Send: Buffer
    var Closed: bool
    /** Every broadcast the hub has put into Send. */
    ghost var Handed: seq<nat>

    constructor (id: string, user: string, org: string, ws: string)
      ensures ID == id && UserID == user && OrganizationID == org && WorkspaceID == ws
      ensures State == S.Connecting && Subscriptions == {} && Send == [] && !Closed && Handed == []
    {
      ID, UserID, OrganizationID, WorkspaceID := id, user, org, ws;
      State, Subscriptions, Send, Closed, Handed := S.Connecting, {}, [], false, [];
    }

    function AsMember(): S.Member
      reads this`State, this`Subscriptions
    {
      S.Member(State, UserID, OrganizationID, WorkspaceID, Subscriptions)
    }

    /** Whom an event is meant for, told from the client's own fields. */
    predicate MeantFor(e: S.Event)
      reads this`State, this`Subscriptions
    {
      && State == S.Connected
      && if e.users != [] then UserID in e.users
         else
           || (e.ws != "" && WorkspaceID == e.ws)
           || (e.ws == "" && e.org != "" && OrganizationID == e.org)
           || (e.kind in Subscriptions
               && (e.org == "" || OrganizationID == e.org) && (e.ws == "" || WorkspaceID == e.ws))
           || (e.entityType != "" && e.entityId != "" && e.entityType + ":" + e.entityId in Subscriptions
               && (e.org == "" || OrganizationID == e.org))
    }

    /** The non-blocking send of the hub's select. */
    method TrySend(m: Message) returns (ok: bool)
      requires !Closed
      modifies this`Send, this`Handed
      ensures ok == (|old(Send)| < SEND_BUFFER)
      ensures Send == old(Send) + (if ok then [m] else [])
      ensures Handed == old(Handed) + (if ok then Numbers(m) else [])
    {
      ok := |Send| < SEND_BUFFER;
      if ok {
        Send := Send + [m];
        Handed := Handed + Numbers(m);
      }
    }

    /** The write pump takes the next message. */
    method Next() returns (m: Message)
      requires Send != []
      modifies this`Send
      ensures [m] + Send == old(Send)
    {
      m := Send[0];
      Send := Send[1..];
    }

    method CloseSend()
      requires !Closed
      modifies this`Closed
      ensures Closed
    {
      Closed := true;
    }
  }

  /** Broadcast numbers in the order they were handed over, each at most once. */
  predicate Ascending(ns: seq<nat>, bound: nat) {
    && (forall i, j :: 0 <= i < j < |ns| ==> ns[i] < ns[j])
    && (forall i :: 0 <= i < |ns| ==> ns[i] < bound)
  }

  lemma AscendingSnoc(ns: seq<nat>, n: nat)
    requires Ascending(ns, n)
    ensures Ascending(ns, n + 1) && Ascending(ns + [n], n + 1)
  {
  }

  lemma TakeAllNothing(m: S.Index, id: string)
    ensures S.TakeAll(m, {}, id) == m && {} * m.Keys == {}
  {
  }

  lemma MoveOne(done: set<string>, rest: set<string>, k: string)
    requires done !! rest && k in rest
    ensures (done + {k}) + (rest - {k}) == done + rest && (done + {k}) !! (rest - {k})
  {
  }

  lemma TakeAllStep(m: S.Index, ks: set<string>, k: string, id: string)
    requires k !in ks
    ensures S.TakeAll(m, ks + {k}, id) == S.Take(S.TakeAll(m, ks, id), k, id)
    ensures k in S.TakeAll(m, ks, id) <==> k in m
  {
  }

  lemma CountKey(ks: set<string>, keys: set<string>, k: string)
    requires k !in ks
    ensures |(ks + {k}) * keys| == |ks * keys| + if k in keys then 1 else 0
  {
    if k in keys {
      assert (ks + {k}) * keys == ks * keys + {k};
    } else {
      assert (ks + {k}) * keys == ks * keys;
    }
  }

  class Hub {
    var clients: map<string, Client>
    var userClients: S.Index
    var orgClients: S.Index
    var workspaceClients: S.Index
    var channels: S.Index
    var activeSubscriptions: int
    var totalConnections: nat
    var totalMessages: nat
    var totalBroadcasts: nat
    /** Clients for which an unregister request was started because their buffer was full. */
    var kicked: seq<Client>
    /** Every client created so far, by id, and what each of them holds. */
    ghost var objects: set<Client>
    ghost var known: map<string, Client>
    ghost var members: map<string, S.Member>

    ghost function View(): S.State
      reads this`members, this`userClients, this`orgClients, this`workspaceClients, this`channels,
        this`activeSubscriptions
    {
      S.State(members, userClients, orgClients, workspaceClients, channels, activeSubscriptions)
    }

    /** One client's clauses of the hub invariant. */
    ghost predicate ClientOk(c: Client)
      reads this`known, this`members, c`State, c`Subscriptions, c`Closed
    {
      && c.ID in members && members[c.ID] == c.AsMember()
      && c.ID in known && known[c.ID] == c
      && c.Closed == c.State.Disconnected?
    }

    /** The objects, the client map and the recorded members tell the same. */
    ghost predicate Linked()
      reads this`objects, this`known, this`members, this`clients, objects`State, objects`Subscriptions, objects`Closed
    {
      && (forall c :: c in objects ==> ClientOk(c))
      && (forall id {:trigger members[id]} {:trigger id in clients} ::
            id in members && members[id].phase.Connected? <==> id in clients)
      && (forall id {:trigger clients[id]} :: id in clients ==> clients[id] in objects && clients[id].ID == id)
    }

    /** Each client was handed broadcasts in increasing order. */
    ghost predicate Ordered()
      reads this`objects, this`totalBroadcasts, objects`Handed
    {
      OrderedBefore(totalBroadcasts)
    }

    ghost predicate OrderedBefore(n: nat)
      reads this`objects, objects`Handed
    {
      forall c :: c in objects ==> Ascending(c.Handed, n)
    }

    /** What every hub method keeps: the links, the index invariant of HubState, and the order of broadcasts. */
    ghost predicate Valid()
      reads this`objects, this`known, this`members, this`clients, objects`State, objects`Subscriptions, objects`Closed
      reads this`userClients, this`orgClients, this`workspaceClients, this`channels, this`activeSubscriptions
      reads this`totalBroadcasts, objects`Handed
    {
      Linked() && S.Inv(View()) && Ordered()
    }

    /** A step of HubState on linked objects keeps the rest, as long as nobody is handed a broadcast. */
    twostate lemma StepKeepsValid(step: S.Step)
      requires old(Valid()) && Linked() && S.Enabled(old(View()), step) && View() == S.Apply(old(View()), step)
      requires objects == old(objects) && totalBroadcasts == old(totalBroadcasts)
      requires forall c :: c in objects ==> unchanged(c`Handed)
      ensures Valid()
    {
      S.StepKeepsInv(old(View()), step);
    }

    /** The list names each chosen client once, all of them open, and nobody else. */
    ghost predicate Lists(targets: seq<Client>, chosen: set<Client>)
      reads this`objects, chosen`Closed
    {
      && chosen <= objects && (forall i :: 0 <= i < |targets| ==> targets[i] in chosen)
      && (forall c :: c in chosen ==> c in targets && !c.Closed)
      && (forall i, j :: 0 <= i < j < |targets| ==> targets[i] != targets[j])
    }

    constructor ()
      ensures Valid() && View() == S.EMPTY && objects == {}
    {
      clients, userClients, orgClients, workspaceClients, channels := map[], map[], map[], map[], map[];
      activeSubscriptions, totalConnections, totalMessages, totalBroadcasts := 0, 0, 0, 0;
      kicked := [];
      objects, known, members := {}, map[], map[];
    }

    method NewClient(id: string, user: string, org: string, ws: string) returns (c: Client)
      requires Valid() && id !in members
      modifies this`objects, this`known, this`members
      ensures Valid() && fresh(c) && objects == old(objects) + {c} && c.ID == id && c.Handed == []
      ensures View() == S.Apply(old(View()), S.Create(id, user, org, ws))
    {
      c := new Client(id, user, org, ws);
      objects, known := objects + {c}, known[id := c];
      members := members[id := S.Member(S.Connecting, user, org, ws, {})];
      AddedLinked(c);
      AddedOrdered(c);
      S.StepKeepsInv(old(View()), S.Create(id, user, org, ws));
    }

    twostate lemma AddedLinked(new c: Client)
      requires old(Linked()) && c.ID !in old(members) && unchanged(this`clients)
      requires objects == old(objects) + {c} && known == old(known)[c.ID := c]
      requires members == old(members)[c.ID := S.Member(S.Connecting, c.UserID, c.OrganizationID, c.WorkspaceID, {})]
      requires c.State == S.Connecting && c.Subscriptions == {} && !c.Closed
      requires forall d :: d in old(objects) ==> unchanged(d`State, d`Subscriptions, d`Closed)
      ensures Linked()
    {
      forall d | d in objects ensures ClientOk(d) {
        if d != c {
          assert old(ClientOk(d));
        }
      }
    }

    twostate lemma AddedOrdered(new c: Client)
      requires objects == old(objects) + {c} && unchanged(this`totalBroadcasts) && c.Handed == []
      requires forall d :: d in old(objects) ==> unchanged(d`Handed)
      ensures old(Ordered()) ==> Ordered()
    {
    }

    method RegisterClient(client: Client)
      requires Valid() && client in objects && client.State.Connecting?
      modifies this`clients, this`userClients, this`orgClients, this`workspaceClients, this`members,
        this`totalConnections
      modifies client`State
      ensures Valid() && client.ID in clients
      ensures View() == S.Apply(old(View()), S.Register(client.ID))
      ensures totalConnections == old(totalConnections) + 1
    {
      FileClient(client);
      totalConnections := totalConnections + 1;
      StepKeepsValid(S.Register(client.ID));
    }

    /** The part of registerClient that puts the client into the hub's maps. */
    method FileClient(client: Client)
      requires Linked() && client in objects && client.State.Connecting?
      modifies this`clients, this`userClients, this`orgClients, this`workspaceClients, this`members
      modifies client`State
      ensures Linked() && client.ID in clients && S.Enabled(old(View()), S.Register(client.ID))
      ensures View() == S.Apply(old(View()), S.Register(client.ID))
    {
      ghost var before, was := View(), client.AsMember();
      assert ClientOk(client);
      clients := clients[client.ID := client];
      client.State := S.Connected;
      IndexClient(client);
      assert client.AsMember() == was.(phase := S.Connected);
      members := members[client.ID := client.AsMember()];
      Registered(before, View(), client.ID);
      LinkedWith(client);
    }

    /** The register step, field by field. */
    static lemma Registered(s: S.State, t: S.State, id: string)
      requires S.Enabled(s, S.Register(id))
      requires var c := s.members[id];
        && t.members == s.members[id := c.(phase := S.Connected)]
        && t.users == S.Put(s.users, c.user, id)
        && t.orgs == (if c.org != "" then S.Put(s.orgs, c.org, id) else s.orgs)
        && t.workspaces == (if c.ws != "" then S.Put(s.workspaces, c.ws, id) else s.workspaces)
        && t.channels == s.channels && t.active == s.active
      ensures t == S.Apply(s, S.Register(id))
    {
    }

    lemma OwnEntry(client: Client)
      requires Linked() && client in objects
      ensures client.ID in members && members[client.ID] == client.AsMember()
      ensures client.ID in clients ==> clients[client.ID] == client
      ensures client.ID in clients <==> client.State.Connected?
      ensures client.Closed == client.State.Disconnected?
    {
      assert ClientOk(client);
      if client.ID in clients {
        assert ClientOk(clients[client.ID]);
      }
    }

    /** Recording one client's new state and subscriptions keeps every client's clauses. */
    twostate lemma OnlyChanged(client: Client)
      requires old(Linked()) && objects == old(objects) && known == old(known) && client in objects
      requires members == old(members)[client.ID := client.AsMember()]
      requires client.Closed == client.State.Disconnected?
      requires forall c :: c in objects && c != client ==> unchanged(c`State, c`Subscriptions, c`Closed)
      ensures forall c :: c in objects ==> ClientOk(c)
    {
      assert old(ClientOk(client));
      forall c | c in objects ensures ClientOk(c) {
        assert old(ClientOk(c));
      }
    }

    /** So does keeping the client map in step with that one client's state. */
    twostate lemma StillLinked(client: Client)
      requires old(Linked()) && objects == old(objects) && known == old(known) && client in objects
      requires members == old(members)[client.ID := client.AsMember()]
      requires client.Closed == client.State.Disconnected?
      requires forall c :: c in objects && c != client ==> unchanged(c`State, c`Subscriptions, c`Closed)
      requires forall id :: id in clients <==> if id == client.ID then client.State.Connected? else id in old(clients)
      requires forall id :: id in clients ==> clients[id] == if id == client.ID then client else old(clients)[id]
      ensures Linked()
    {
      OnlyChanged(client);
    }

    twostate lemma LinkedWith(client: Client)
      requires old(Linked()) && objects == old(objects) && known == old(known) && client in objects
      requires members == old(members)[client.ID := client.AsMember()]
      requires clients == old(clients)[client.ID := client]
      requires client.State.Connected? && !client.Closed
      requires forall c :: c in objects && c != client ==> unchanged(c`State, c`Subscriptions, c`Closed)
      ensures Linked()
    {
      StillLinked(client);
    }

    twostate lemma LinkedWithout(client: Client)
      requires old(Linked()) && objects == old(objects) && known == old(known) && client in objects
      requires members == old(members)[client.ID := client.AsMember()]
      requires clients == old(clients) - {client.ID}
      requires client.State.Disconnected? && client.Closed
      requires forall c :: c in objects && c != client ==> unchanged(c`State, c`Subscriptions, c`Closed)
      ensures Linked()
    {
      StillLinked(client);
    }

    /** The index part of registerClient. */
    method IndexClient(client: Client)
      modifies this`userClients, this`orgClients, this`workspaceClients
      ensures userClients == S.Put(old(userClients), client.UserID, client.ID)
      ensures orgClients ==
        if client.OrganizationID == "" then old(orgClients)
        else S.Put(old(orgClients), client.OrganizationID, client.ID)
      ensures workspaceClients ==
        if client.WorkspaceID == "" then old(workspaceClients)
        else S.Put(old(workspaceClients), client.WorkspaceID, client.ID)
    {
      userClients := AddTo(userClients, client.UserID, client.ID);
      if client.OrganizationID != "" {
        orgClients := AddTo(orgClients, client.OrganizationID, client.ID);
      }
      if client.WorkspaceID != "" {
        workspaceClients := AddTo(workspaceClients, client.WorkspaceID, client.ID);
      }
    }

    /** A client not registered, or no longer, is left as it is. */
    method UnregisterClient(client: Client)
      requires Valid() && client in objects
      modifies this`clients, this`userClients, this`orgClients, this`workspaceClients, this`members
      modifies this`channels, this`activeSubscriptions, client`State, client`Closed
      ensures Valid() && client.ID !in clients
      ensures client.State == if old(client.State).Connecting? then S.Connecting else S.Disconnected
      ensures client.Closed == client.State.Disconnected?
      ensures View() == S.Apply(old(View()), S.Unregister(client.ID))
    {
      OwnEntry(client);
      if client.ID !in clients {
        return;
      }
      RemoveClient(client);
      StepKeepsValid(S.Unregister(client.ID));
    }

    method RemoveClient(client: Client)
      requires Linked() && client in objects && client.ID in clients
      modifies this`clients, this`userClients, this`orgClients, this`workspaceClients, this`members
      modifies this`channels, this`activeSubscriptions, client`State, client`Closed
      ensures Linked() && client.ID !in clients && client.State.Disconnected? && client.Closed
      ensures S.Enabled(old(View()), S.Unregister(client.ID))
      ensures View() == S.Apply(old(View()), S.Unregister(client.ID))
    {
      OwnEntry(client);
      client.State := S.Disconnected;
      ForgetClient(client);
      client.CloseSend();
      LinkedWithout(client);
    }

    /** The unregister step of a connected client, field by field. */
    static lemma Removed(s: S.State, t: S.State, id: string)
      requires S.IsConnected(s, id)
      requires var c := s.members[id];
        && t.members == s.members[id := c.(phase := S.Disconnected)]
        && t.users == S.Take(s.users, c.user, id)
        && t.orgs == S.Take(s.orgs, c.org, id)
        && t.workspaces == S.Take(s.workspaces, c.ws, id)
        && t.channels == S.TakeAll(s.channels, c.subs, id)
        && t.active == s.active - |c.subs * s.channels.Keys|
      ensures t == S.Apply(s, S.Unregister(id))
    {
    }

    /** The part of unregisterClient that takes the client out of the hub's own maps. */
    method ForgetClient(client: Client)
      requires client.State.Disconnected? && client.ID in members
      requires members[client.ID] == client.AsMember().(phase := S.Connected)
      modifies this`clients, this`userClients, this`orgClients, this`workspaceClients, this`members
      modifies this`channels, this`activeSubscriptions
      ensures clients == old(clients) - {client.ID} && members == old(members)[client.ID := client.AsMember()]
      ensures View() == S.Apply(old(View()), S.Unregister(client.ID))
    {
      channels, activeSubscriptions := LeaveChannels(channels, activeSubscriptions, client.Subscriptions, client.ID);
      clients := clients - {client.ID};
      userClients := RemoveFrom(userClients, client.UserID, client.ID);
      orgClients := RemoveFrom(orgClients, client.OrganizationID, client.ID);
      workspaceClients := RemoveFrom(workspaceClients, client.WorkspaceID, client.ID);
      members := members[client.ID := client.AsMember()];
      Removed(old(View()), View(), client.ID);
    }

    /** The insertion of an id into one bucket, made on first use. */
    static method AddTo(m: S.Index, k: string, id: string) returns (r: S.Index)
      ensures r == S.Put(m, k, id)
    {
      r := m;
      if k !in r {
        r := r[k := {}];
      }
      r := r[k := r[k] + {id}];
    }

    /** The deletion of an id from one bucket, and of the bucket when it empties. */
    static method RemoveFrom(m: S.Index, k: string, id: string) returns (r: S.Index)
      ensures r == S.Take(m, k, id)
    {
      r := m;
      if k in r {
        r := r[k := r[k] - {id}];
        if |r[k]| == 0 {
          r := r - {k};
        }
      }
    }

    /** The loop of unregisterClient over the client's own subscriptions. */
    static method LeaveChannels(channels: S.Index, active: int, subs: set<string>, id: string)
      returns (left: S.Index, count: int)
      ensures left == S.TakeAll(channels, subs, id)
      ensures count == active - |subs * channels.Keys|
    {
      left, count := channels, active;
      var rest := subs;
      ghost var done: set<string> := {};
      TakeAllNothing(channels, id);
      while rest != {}
        invariant done + rest == subs && done !! rest
        invariant left == S.TakeAll(channels, done, id)
        invariant count == active - |done * channels.Keys|
        decreases |rest|
      {
        var ch :| ch in rest;
        TakeAllStep(channels, done, ch, id);
        CountKey(done, channels.Keys, ch);
        if ch in left {
          left := RemoveFrom(left, ch, id);
          count := count - 1;
        }
        MoveOne(done, rest, ch);
        done := done + {ch};
        rest := rest - {ch};
      }
    }

    method Subscribe(client: Client, channel: string)
      requires Valid() && client in objects
      modifies this`channels, this`activeSubscriptions, this`members, client`Subscriptions
      ensures Valid()
      ensures View() == S.Apply(old(View()), S.Subscribe(client.ID, channel))
    {
      ghost var was := client.AsMember();
      OwnEntry(client);
      channels := AddTo(channels, channel, client.ID);
      client.Subscriptions := client.Subscriptions + {channel};
      activeSubscriptions := activeSubscriptions + 1;
      assert client.AsMember() == was.(subs := was.subs + {channel});
      members := members[client.ID := client.AsMember()];
      StillLinked(client);
      StepKeepsValid(S.Subscribe(client.ID, channel));
    }

    method Unsubscribe(client: Client, channel: string)
      requires Valid() && client in objects
      modifies this`channels, this`activeSubscriptions, this`members, client`Subscriptions
      ensures Valid()
      ensures View() == S.Apply(old(View()), S.Unsubscribe(client.ID, channel))
    {
      ghost var was := client.AsMember();
      OwnEntry(client);
      channels := RemoveFrom(channels, channel, client.ID);
      client.Subscriptions := client.Subscriptions - {channel};
      activeSubscriptions := activeSubscriptions - 1;
      assert client.AsMember() == was.(subs := was.subs - {channel});
      members := members[client.ID := client.AsMember()];
      StillLinked(client);
      StepKeepsValid(S.Unsubscribe(client.ID, channel));
    }

    // ---- routing and delivery -------------------------------------------------------------

    /** The registered subscribers of one channel that lie in the event's scope. */
    method Subscribers(channel: string, e: S.Event, checkWorkspace: bool) returns (r: set<string>)
      requires Valid()
      ensures r == S.Subscribers(View(), channel, e, checkWorkspace)
    {
      var all := if channel in channels then channels[channel] else {};
      forall id | id in clients ensures Filed(id, clients[id], View()) {
        assert ClientOk(clients[id]);
      }
      r := InScope(all, clients, e, checkWorkspace, View());
    }

    /** Client c is the member the state knows under id. */
    static ghost predicate Filed(id: string, c: Client, v: S.State) {
      c.ID == id && id in v.members && v.members[id].org == c.OrganizationID && v.members[id].ws == c.WorkspaceID
    }

    /** The ids of a set that a state's routing finds eligible. */
    static function EligibleIn(ids: set<string>, e: S.Event, checkWorkspace: bool, v: S.State): set<string> {
      set id | id in ids && S.Eligible(v, id, e, checkWorkspace)
    }

    static lemma EligibleMore(ids: set<string>, id: string, e: S.Event, checkWorkspace: bool, v: S.State)
      ensures EligibleIn(ids + {id}, e, checkWorkspace, v)
           == EligibleIn(ids, e, checkWorkspace, v) + if S.Eligible(v, id, e, checkWorkspace) then {id} else {}
    {
    }

    static method InScope(all: set<string>, clients: map<string, Client>, e: S.Event, checkWorkspace: bool,
        ghost v: S.State)
      returns (r: set<string>)
      requires forall id :: id in clients <==> S.IsConnected(v, id)
      requires forall id :: id in clients ==> Filed(id, clients[id], v)
      ensures r == EligibleIn(all, e, checkWorkspace, v)
    {
      r := {};
      var rest := all;
      ghost var done: set<string> := {};
      while rest != {}
        invariant done + rest == all && done !! rest
        invariant r == EligibleIn(done, e, checkWorkspace, v)
        decreases |rest|
      {
        var id :| id in rest;
        EligibleMore(done, id, e, checkWorkspace, v);
        MoveOne(done, rest, id);
        if id in clients {
          var client := clients[id];
          if e.org == "" || client.OrganizationID == e.org {
            if !checkWorkspace || e.ws == "" || client.WorkspaceID == e.ws {
              r := r + {id};
            }
          }
        }
        done := done + {id};
        rest := rest - {id};
      }
    }

    /** The ids collected by findTargetClients: exactly those a scan over all clients selects. */
    method FindTargetIds(e: S.Event) returns (ids: set<string>)
      requires Valid()
      ensures ids == S.Scan(View(), e)
    {
      ids := {};
      if |e.users| > 0 {
        for i := 0 to |e.users|
          invariant ids == S.UserTargets(userClients, e.users[..i])
        {
          S.UserTargetsSnoc(userClients, e.users[..i], e.users[i]);
          assert e.users[..i + 1] == e.users[..i] + [e.users[i]];
          if e.users[i] in userClients {
            ids := ids + userClients[e.users[i]];
          }
        }
        assert e.users[..|e.users|] == e.users;
      } else {
        if e.ws != "" {
          if e.ws in workspaceClients {
            ids := ids + workspaceClients[e.ws];
          }
        } else if e.org != "" {
          if e.org in orgClients {
            ids := ids + orgClients[e.org];
          }
        }
        var byKind := Subscribers(e.kind, e, true);
        ids := ids + byKind;
        if e.entityType != "" && e.entityId != "" {
          var byEntity := Subscribers(e.entityType + ":" + e.entityId, e, false);
          ids := ids + byEntity;
        }
      }
      assert ids == S.Targets(View(), e);
      S.RoutingMatchesScan(View(), e);
    }

    /** The clients with one of the given ids. */
    ghost function Among(ids: set<string>): set<Client>
      reads this`objects
    {
      set c | c in objects && c.ID in ids
    }

    /** The clients a scan selects for an event. */
    ghost function Chosen(e: S.Event): set<Client>
      reads this`objects, this`members, this`userClients, this`orgClients, this`workspaceClients
      reads this`channels, this`activeSubscriptions
    {
      Among(S.Scan(View(), e))
    }

    /** The clients collected under some registered ids, none twice. */
    method MapValues(ids: set<string>) returns (targets: seq<Client>)
      requires Valid() && ids <= clients.Keys
      ensures Lists(targets, Among(ids))
    {
      targets := [];
      var rest := ids;
      while rest != {}
        invariant rest <= ids
        invariant forall i :: 0 <= i < |targets| ==>
          targets[i] in objects && !targets[i].Closed && targets[i].ID in ids - rest
        invariant forall i, j :: 0 <= i < j < |targets| ==> targets[i] != targets[j]
        invariant forall c :: c in objects && c.ID in ids - rest ==> c in targets
        decreases |rest|
      {
        var id :| id in rest;
        assert ClientOk(clients[id]);
        targets := targets + [clients[id]];
        rest := rest - {id};
      }
    }

    /** The target list: one entry per selected client, no client twice. */
    method FindTargetClients(e: S.Event) returns (targets: seq<Client>)
      requires Valid()
      ensures Lists(targets, Chosen(e))
      ensures forall c :: c in targets <==> c in objects && c.MeantFor(e)
    {
      forall c | c in objects ensures c in Chosen(e) <==> c.MeantFor(e) {
        ChosenIff(c, e);
      }
      var ids := FindTargetIds(e);
      targets := MapValues(ids);
    }

    lemma ChosenIff(c: Client, e: S.Event)
      requires Valid() && c in objects
      ensures c in Chosen(e) <==> c.MeantFor(e)
    {
      OwnEntry(c);
      S.RoutingMatchesScan(View(), e);
      if e.users == [] {
        HubHistory.TargetIff(View(), e, c.ID);
      } else {
        HubHistory.UserTargetIff(View(), e, c.ID);
      }
    }

    /** Broadcast number n goes to each scanned client whose buffer has room, once, at the end of
        its queue, and to nobody else; a full client is scheduled for removal instead. */
    method BroadcastEvent(e: S.Event)
      requires Valid()
      modifies this`totalBroadcasts, this`totalMessages, this`kicked, objects`Send, objects`Handed
      ensures Valid() && View() == old(View())
      ensures totalBroadcasts == old(totalBroadcasts) + 1 && old(kicked) <= kicked
      ensures forall c :: c in objects ==>
        Handled(old(c.Send), c.Send, old(c.Handed), c.Handed, Broadcast(old(totalBroadcasts)), c in old(Chosen(e)))
      ensures forall c :: c in kicked[|old(kicked)|..] <==> c in old(Chosen(e)) && |old(c.Send)| >= SEND_BUFFER
      ensures forall c :: c in objects ==>
        c.Send == old(c.Send) + if c.MeantFor(e) && |old(c.Send)| < 256 then [Broadcast(old(totalBroadcasts))] else []
    {
      forall c | c in objects ensures c in Chosen(e) <==> c.MeantFor(e) {
        ChosenIff(c, e);
      }
      var targets := FindTargetClients(e);
      Dispatch(targets, Chosen(e));
    }

    /** Counts the broadcast and delivers it. */
    method Dispatch(targets: seq<Client>, ghost chosen: set<Client>)
      requires Valid()
      requires Lists(targets, chosen)
      modifies this`totalBroadcasts, this`totalMessages, this`kicked, objects`Send, objects`Handed
      ensures Valid() && View() == old(View())
      ensures totalBroadcasts == old(totalBroadcasts) + 1 && old(kicked) <= kicked
      ensures forall c :: c in objects ==>
        Handled(old(c.Send), c.Send, old(c.Handed), c.Handed, Broadcast(old(totalBroadcasts)), c in chosen)
      ensures forall c :: c in kicked[|old(kicked)|..] <==> c in chosen && |old(c.Send)| >= SEND_BUFFER
    {
      totalBroadcasts := totalBroadcasts + 1;
      Deliver(targets, Broadcast(totalBroadcasts - 1), chosen);
      SendKeepsLinked();
    }

    /** Neither the bookkeeping nor a client's own state depends on what is in the buffers. */
    twostate lemma SendKeepsLinked()
      requires old(Linked()) && unchanged(this`objects, this`known, this`members, this`clients)
      requires forall c :: c in objects ==> unchanged(c`State, c`Subscriptions, c`Closed)
      ensures Linked()
    {
      forall c | c in objects ensures ClientOk(c) {
        assert old(ClientOk(c));
      }
    }

    /** A heartbeat goes the same way to every registered client. */
    method SendHeartbeats()
      requires Valid()
      modifies this`totalMessages, this`kicked, objects`Send, objects`Handed
      ensures Valid() && View() == old(View()) && old(kicked) <= kicked
      ensures forall c :: c in objects ==>
        Handled(old(c.Send), c.Send, old(c.Handed), c.Handed, Heartbeat, c in Among(clients.Keys))
      ensures forall c :: c in kicked[|old(kicked)|..] <==> c in Among(clients.Keys) && |old(c.Send)| >= SEND_BUFFER
      ensures forall c :: c in objects ==>
        c.Send == old(c.Send) + if c.State == S.Connected && |old(c.Send)| < 256 then [Heartbeat] else []
    {
      forall c | c in objects ensures c in Among(clients.Keys) <==> c.State == S.Connected {
        OwnEntry(c);
      }
      var targets := MapValues(clients.Keys);
      Deliver(targets, Heartbeat, Among(clients.Keys));
      SendKeepsLinked();
    }

    /** Delivers one message to a target list without duplicates. */
    method Deliver(targets: seq<Client>, m: Message, ghost chosen: set<Client>)
      requires OrderedBefore(if m.Broadcast? then m.n else totalBroadcasts)
      requires m.Broadcast? ==> totalBroadcasts == m.n + 1
      requires Lists(targets, chosen)
      modifies this`totalMessages, this`kicked, objects`Send, objects`Handed
      ensures Ordered() && old(kicked) <= kicked
      ensures forall c :: c in objects ==> Handled(old(c.Send), c.Send, old(c.Handed), c.Handed, m, c in chosen)
      ensures forall c :: c in kicked[|old(kicked)|..] <==> c in chosen && |old(c.Send)| >= SEND_BUFFER
    {
      var full := SendToAll(targets, m, chosen);
      kicked := kicked + full;
      assert kicked[|old(kicked)|..] == full;
      forall c | c in objects
        ensures Ascending(c.Handed, totalBroadcasts) &&
          Handled(old(c.Send), c.Send, old(c.Handed), c.Handed, m, c in chosen)
      {
        if m.Broadcast? {
          AscendingSnoc(old(c.Handed), m.n);
        }
        assert old(c.Handed) + [] == old(c.Handed);
      }
    }

    /** The delivery loop; returns the clients whose buffer was full. */
    method SendToAll(targets: seq<Client>, m: Message, ghost chosen: set<Client>) returns (full: seq<Client>)
      requires Lists(targets, chosen)
      modifies this`totalMessages, chosen`Send, chosen`Handed
      ensures forall c :: c in chosen ==> Handled(old(c.Send), c.Send, old(c.Handed), c.Handed, m, true)
      ensures forall c :: c in full <==> c in chosen && |old(c.Send)| >= SEND_BUFFER
    {
      full := [];
      ghost var done: set<Client> := {};
      for i := 0 to |targets|
        invariant done <= chosen
        invariant forall k :: 0 <= k < |targets| ==> (targets[k] in done <==> k < i)
        invariant forall c :: c in chosen ==> Handled(old(c.Send), c.Send, old(c.Handed), c.Handed, m, c in done)
        invariant forall c :: c in full <==> c in done && |old(c.Send)| >= SEND_BUFFER
      {
        var c := targets[i];
        var ok := c.TrySend(m);
        if ok {
          totalMessages := totalMessages + 1;
        } else {
          full := full + [c];
        }
        done := done + {c};
      }
    }

    /** What message m does to one client's buffer and record. */
    static predicate Handled(before: Buffer, after: Buffer, handed: seq<nat>, nowHanded: seq<nat>,
        m: Message, wanted: bool)
    {
      var sent := wanted && |before| < SEND_BUFFER;
      && after == before + (if sent then [m] else [])
      && nowHanded == handed + (if sent then Numbers(m) else [])
    }

    /** Shutdown closes every registered client's channel, once, and empties the client map. */
    method Shutdown()
      requires Valid()
      modifies this`clients, clients.Values
      ensures clients == map[]
      ensures forall c :: c in objects ==> c.Closed == (old(c.Closed) || c.ID in old(clients))
    {
      var rest := clients.Keys;
      while rest != {}
        invariant rest <= clients.Keys && clients == old(clients)
        invariant forall c :: c in objects ==> c.Closed == (old(c.Closed) || (c.ID in clients && c.ID !in rest))
        decreases |rest|
      {
        var id :| id in rest;
        clients[id].CloseSend();
        rest := rest - {id};
      }
      clients := map[];
    }
  }
}
