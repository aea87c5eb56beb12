/** The subscription protocol between browser hook and server. */
module RealtimeLink {
  // The hook keeps a local set of channels and resends it whenever a socket opens; the server rebuilds
  // one set per connection from the messages it reads in order. Sockets may overlap: nothing in the hook
  // stops a second `connect()` while the first socket is still connecting.

  import opened Wrappers

  datatype Message = Subscribe(channel: string) | Unsubscribe(channel: string)

  datatype SocketState = Connecting | Open | Closing | Closed

  /** A socket with the messages still on its way to the server. `hub` is the set of channels the
      hub holds for this connection, `registered` whether the hub still knows the connection. */
  datatype Socket = Socket(state: SocketState, link: seq<Message>, registered: bool, hub: set<string>)

  /** `subs` lists the hook's channel set in insertion order; `ws` is the hook's current socket. */
  datatype World = World(subs: seq<string>, ws: Option<nat>, sockets: seq<Socket>)

  datatype Step =
    | Connect
    | Opened(i: nat)         // the open event of socket i
    | Lost(i: nat)           // the close event of socket i
    | Disconnect
    | AddChannel(ch: string)
    | DropChannel(ch: string)
    | Deliver(i: nat)        // the server reads the next message of socket i
    | ServerDrop(i: nat)     // the hub unregisters the connection

  const START := World([], None, [])

  // ---- the pieces of a step ---------------------------------------------------------------

  /** Set insertion and deletion on the insertion-ordered list. */
  function With(subs: seq<string>, ch: string): seq<string> {
    if ch in subs then subs else subs + [ch]
  }

  function Without(subs: seq<string>, ch: string): seq<string> {
    if subs == [] then []
    else if subs[0] == ch then Without(subs[1..], ch)
    else [subs[0]] + Without(subs[1..], ch)
  }

  function Channels(subs: seq<string>): set<string> {
    set ch | ch in subs
  }

  function Resubscribe(subs: seq<string>): seq<Message> {
    seq(|subs|, i requires 0 <= i < |subs| => Subscribe(subs[i]))
  }

  predicate CanSend(s: World) {
    s.ws.Some? && s.ws.value < |s.sockets| && s.sockets[s.ws.value].state.Open?
  }

  /** `wsRef.current.send`, which the hook calls only when that socket is open. */
  function SendIfOpen(s: World, m: Message): World {
    if CanSend(s) then
      var k := s.sockets[s.ws.value];
      s.(sockets := s.sockets[s.ws.value := k.(link := k.link + [m])])
    else s
  }

  /** The server's handler: an empty channel name only produces an error reply. */
  function Handle(hub: set<string>, m: Message): set<string> {
    if m.channel == "" then hub
    else if m.Subscribe? then hub + {m.channel}
    else hub - {m.channel}
  }

  function Replay(link: seq<Message>, hub: set<string>): set<string> {
    if link == [] then hub else Replay(link[1..], Handle(hub, link[0]))
  }

  predicate Enabled(s: World, step: Step) {
    match step
    case Opened(i) => i < |s.sockets| && s.sockets[i].state.Connecting?
    case Lost(i) => i < |s.sockets| && !s.sockets[i].state.Closed?
    case Deliver(i) => i < |s.sockets| && s.sockets[i].registered && s.sockets[i].link != []
    case ServerDrop(i) => i < |s.sockets| && s.sockets[i].registered
    case _ => true
  }

  function Apply(s: World, step: Step): World
    requires Enabled(s, step)
  {
    match step
    case Connect =>
      if CanSend(s) then s
      else s.(sockets := s.sockets + [Socket(Connecting, [], true, {})], ws := Some(|s.sockets|))
    case Opened(i) =>
      var k := s.sockets[i];
      s.(sockets := s.sockets[i := k.(state := Open, link := k.link + Resubscribe(s.subs))])
    case Lost(i) => s.(sockets := s.sockets[i := s.sockets[i].(state := Closed)], ws := None)
    case Disconnect =>
      if s.ws.Some? && s.ws.value < |s.sockets| then
        var k := s.sockets[s.ws.value];
        s.(sockets := s.sockets[s.ws.value := k.(state := if k.state.Closed? then Closed else Closing)], ws := None)
      else s
    case AddChannel(ch) => SendIfOpen(s.(subs := With(s.subs, ch)), Subscribe(ch))
    case DropChannel(ch) => SendIfOpen(s.(subs := Without(s.subs, ch)), Unsubscribe(ch))
    case Deliver(i) =>
      var k := s.sockets[i];
      s.(sockets := s.sockets[i := k.(link := k.link[1..], hub := Handle(k.hub, k.link[0]))])
    case ServerDrop(i) =>
      s.(sockets := s.sockets[i := s.sockets[i].(registered := false, hub := {})])
  }

  predicate Runs(s: World, steps: seq<Step>)
    decreases |steps|
  {
    steps == [] || (Enabled(s, steps[0]) && Runs(Apply(s, steps[0]), steps[1..]))
  }

  function After(s: World, steps: seq<Step>): World
    requires Runs(s, steps)
    decreases |steps|
  {
    if steps == [] then s else After(Apply(s, steps[0]), steps[1..])
  }

  lemma RunCons(s: World, step: Step, rest: seq<Step>)
    requires Enabled(s, step) && Runs(Apply(s, step), rest)
    ensures Runs(s, [step] + rest) && After(s, [step] + rest) == After(Apply(s, step), rest)
  {
    assert ([step] + rest)[1..] == rest && ([step] + rest)[0] == step;
  }

  // ---- replay -----------------------------------------------------------------------------

  lemma {:induction false} ReplayAppend(link: seq<Message>, more: seq<Message>, hub: set<string>)
    ensures Replay(link + more, hub) == Replay(more, Replay(link, hub))
  {
    if link == [] {
      assert link + more == more;
    } else {
      assert (link + more)[1..] == link[1..] + more;
      ReplayAppend(link[1..], more, Handle(hub, link[0]));
    }
  }

  lemma ReplaySnoc(link: seq<Message>, m: Message, hub: set<string>)
    ensures Replay(link + [m], hub) == Handle(Replay(link, hub), m)
  {
    ReplayAppend(link, [m], hub);
    assert Replay([m], Replay(link, hub)) == Replay([], Handle(Replay(link, hub), m));
  }

  lemma {:induction false} ReplayResubscribe(subs: seq<string>, hub: set<string>)
    ensures Replay(Resubscribe(subs), hub) == hub + (Channels(subs) - {""})
    decreases |subs|
  {
    if subs != [] {
      var n := |subs| - 1;
      assert Resubscribe(subs) == Resubscribe(subs[..n]) + [Subscribe(subs[n])];
      ReplaySnoc(Resubscribe(subs[..n]), Subscribe(subs[n]), hub);
      ReplayResubscribe(subs[..n], hub);
      assert subs == subs[..n] + [subs[n]];
    }
  }

  lemma {:induction false} WithoutChannels(subs: seq<string>, ch: string)
    ensures Channels(Without(subs, ch)) == Channels(subs) - {ch}
  {
    if subs != [] {
      WithoutChannels(subs[1..], ch);
      assert subs == [subs[0]] + subs[1..];
      assert Channels(subs) == {subs[0]} + Channels(subs[1..]);
      if subs[0] != ch {
        assert Channels(Without(subs, ch)) == {subs[0]} + Channels(Without(subs[1..], ch));
      }
    }
  }

  // ---- the invariant ----------------------------------------------------------------------

  /** What the server will hold for socket k once the messages in flight arrive is exactly the
      hook's set, less the empty name the server refuses. */
  predicate Synced(s: World, k: Socket) {
    Replay(k.link, k.hub) == Channels(s.subs) - {""}
  }

  ghost predicate Inv(s: World) {
    && (forall i :: 0 <= i < |s.sockets| && s.sockets[i].state.Connecting? ==>
          s.sockets[i].link == [] && s.sockets[i].hub == {})
    && (s.ws.Some? ==> s.ws.value < |s.sockets|)
    && (CanSend(s) && s.sockets[s.ws.value].registered ==> Synced(s, s.sockets[s.ws.value]))
  }

  /** A sent change keeps the socket it is sent on in step with the hook's new set. */
  lemma SendKeepsSync(s: World, k: Socket, ch: string)
    requires Synced(s, k)
    ensures Synced(s.(subs := With(s.subs, ch)), k.(link := k.link + [Subscribe(ch)]))
    ensures Synced(s.(subs := Without(s.subs, ch)), k.(link := k.link + [Unsubscribe(ch)]))
  {
    ReplaySnoc(k.link, Subscribe(ch), k.hub);
    ReplaySnoc(k.link, Unsubscribe(ch), k.hub);
    WithoutChannels(s.subs, ch);
    assert Channels(With(s.subs, ch)) == Channels(s.subs) + {ch};
  }

  lemma StepKeepsInv(s: World, step: Step)
    requires Inv(s) && Enabled(s, step)
    ensures Inv(Apply(s, step))
  {
    match step
    case Opened(i) =>
      assert [] + Resubscribe(s.subs) == Resubscribe(s.subs);
      ReplayResubscribe(s.subs, {});
    case AddChannel(ch) =>
      if CanSend(s) && s.sockets[s.ws.value].registered {
        SendKeepsSync(s, s.sockets[s.ws.value], ch);
      }
    case DropChannel(ch) =>
      if CanSend(s) && s.sockets[s.ws.value].registered {
        SendKeepsSync(s, s.sockets[s.ws.value], ch);
      }
    case _ =>
  }

  lemma {:induction false} RunKeepsInv(s: World, steps: seq<Step>)
    requires Inv(s) && Runs(s, steps)
    ensures Inv(After(s, steps))
    decreases |steps|
  {
    if steps != [] {
      StepKeepsInv(s, steps[0]);
      RunKeepsInv(Apply(s, steps[0]), steps[1..]);
    }
  }

  // ---- main results -----------------------------------------------------------------------

  /** In every run, overlapping sockets included, the hook's current open socket is in step: the
      in-flight messages applied to the hub's set for that connection give the hook's set. It is
      all of the hook's set iff the hook never holds the empty channel name. */
  lemma CurrentSocketInStep(steps: seq<Step>)
    requires Runs(START, steps)
    ensures var s := After(START, steps);
      CanSend(s) && s.sockets[s.ws.value].registered ==>
        var k := s.sockets[s.ws.value];
        && Replay(k.link, k.hub) == Channels(s.subs) - {""}
        && (Replay(k.link, k.hub) == Channels(s.subs) <==> "" !in s.subs)
  {
    RunKeepsInv(START, steps);
    assert Inv(After(START, steps));
  }

  /** Draining: n deliveries apply the first n messages, so an emptied link leaves the replay. */
  lemma {:induction false} DrainAppliesLink(s: World, i: nat)
    requires i < |s.sockets| && s.sockets[i].registered
    ensures var steps := seq(|s.sockets[i].link|, _ => Deliver(i));
      && Runs(s, steps)
      && After(s, steps) == s.(sockets := s.sockets[i :=
           s.sockets[i].(link := [], hub := Replay(s.sockets[i].link, s.sockets[i].hub))])
    decreases |s.sockets[i].link|
  {
    var steps := seq(|s.sockets[i].link|, _ => Deliver(i));
    if s.sockets[i].link != [] {
      var t := Apply(s, Deliver(i));
      assert steps[1..] == seq(|t.sockets[i].link|, _ => Deliver(i));
      DrainAppliesLink(t, i);
    } else {
      assert s.sockets[i := s.sockets[i]] == s.sockets;
    }
  }

  /** So once the current link drains, the hub's set equals the hook's. */
  lemma DrainedSetsAgree(steps: seq<Step>)
    requires Runs(START, steps)
    requires CanSend(After(START, steps))
    requires After(START, steps).sockets[After(START, steps).ws.value].registered
    ensures var s := After(START, steps);
      var i := s.ws.value;
      var drain := seq(|s.sockets[i].link|, _ => Deliver(i));
      && Runs(s, drain) && i < |After(s, drain).sockets| && After(s, drain).sockets[i].link == []
      && After(s, drain).sockets[i].hub == Channels(After(s, drain).subs) - {""}
  {
    RunKeepsInv(START, steps);
    DrainAppliesLink(After(START, steps), After(START, steps).ws.value);
  }

  /** The guard a caller would need: `connect()` only when no socket is left. */
  predicate AllClosed(s: World) {
    forall i :: 0 <= i < |s.sockets| ==> s.sockets[i].state.Closed?
  }

  predicate ConnectsAlone(s: World, steps: seq<Step>)
    requires Runs(s, steps)
    decreases |steps|
  {
    steps == [] ||
    ((steps[0].Connect? && !CanSend(s) ==> AllClosed(s)) && ConnectsAlone(Apply(s, steps[0]), steps[1..]))
  }

  /** Every socket that is not closed is the newest one; if it is live it is the current one. */
  ghost predicate OneSocket(s: World) {
    && (forall i :: 0 <= i < |s.sockets| - 1 ==> s.sockets[i].state.Closed?)
    && (forall i :: 0 <= i < |s.sockets| && (s.sockets[i].state.Open? || s.sockets[i].state.Connecting?) ==>
      s.ws == Some(i))
  }

  lemma OneSocketInStep(s: World, i: nat)
    requires Inv(s) && OneSocket(s) && i < |s.sockets| && s.sockets[i].state.Open? && s.sockets[i].registered
    ensures Synced(s, s.sockets[i])
  {
    assert s.ws == Some(i) && CanSend(s);
  }

  /** With one socket at a time every open connection the hub knows is in step, not just the
      current one. */
  lemma {:induction false} OneSocketAllInStep(s: World, steps: seq<Step>)
    requires Inv(s) && OneSocket(s) && Runs(s, steps) && ConnectsAlone(s, steps)
    ensures var t := After(s, steps);
      forall i :: 0 <= i < |t.sockets| && t.sockets[i].state.Open? && t.sockets[i].registered ==>
        Synced(t, t.sockets[i])
    decreases |steps|
  {
    if steps != [] {
      StepKeepsInv(s, steps[0]);
      assert OneSocket(Apply(s, steps[0]));
      OneSocketAllInStep(Apply(s, steps[0]), steps[1..]);
      assert After(s, steps) == After(Apply(s, steps[0]), steps[1..]);
    } else {
      forall i | 0 <= i < |s.sockets| && s.sockets[i].state.Open? && s.sockets[i].registered
        ensures Synced(s, s.sockets[i])
      {
        OneSocketInStep(s, i);
      }
    }
  }

  /** Without that guard it fails: the close event of an overlapped first socket clears `wsRef`
      although the second is open, and a channel added then never reaches the open socket. */
  lemma StaleCloseCutsOffOpenSocket(ch: string)
    requires ch != ""
    ensures var steps := [Connect, Connect, Opened(1), Lost(0), AddChannel(ch)];
      Runs(START, steps) &&
      var s := After(START, steps);
      |s.sockets| == 2 && s.sockets[1] == Socket(Open, [], true, {}) && s.subs == [ch] && !Synced(s, s.sockets[1])
  {
    var idle := Socket(Connecting, [], true, {});
    var s1 := Apply(START, Connect);
    var s2 := Apply(s1, Connect);
    assert s2 == World([], Some(1), [idle, idle]);
    var s3 := Apply(s2, Opened(1));
    assert [] + Resubscribe([]) == [];
    assert s3.sockets == [idle, idle.(state := Open)];
    var s4 := Apply(s3, Lost(0));
    assert s4 == World([], None, [idle.(state := Closed), idle.(state := Open)]);
    var s5 := Apply(s4, AddChannel(ch));
    assert s5.sockets == s4.sockets && s5.subs == [ch];
    RunCons(s4, AddChannel(ch), []);
    RunCons(s3, Lost(0), [AddChannel(ch)] + []);
    RunCons(s2, Opened(1), [Lost(0)] + ([AddChannel(ch)] + []));
    RunCons(s1, Connect, [Opened(1)] + ([Lost(0)] + ([AddChannel(ch)] + [])));
    RunCons(START, Connect, [Connect] + ([Opened(1)] + ([Lost(0)] + ([AddChannel(ch)] + []))));
    assert [Connect] + ([Connect] + ([Opened(1)] + ([Lost(0)] + ([AddChannel(ch)] + [])))) ==
      [Connect, Connect, Opened(1), Lost(0), AddChannel(ch)];
    CutOff(s5, ch);
  }

  lemma CutOff(s: World, ch: string)
    requires ch != "" && s.subs == [ch] && |s.sockets| == 2 && s.sockets[1] == Socket(Open, [], true, {})
    ensures !Synced(s, s.sockets[1])
  {
    assert ch in Channels(s.subs) - {""};
    assert ch !in Replay(s.sockets[1].link, s.sockets[1].hub);
  }

  /** Every open connection the hub knows is in step. */
  ghost predicate AllInStep(s: World) {
    forall i :: InStepAt(s, i)
  }

  ghost predicate InStepAt(s: World, i: int) {
    0 <= i < |s.sockets| && s.sockets[i].state.Open? && s.sockets[i].registered ==> Synced(s, s.sockets[i])
  }

  /** A step that changes the hook's set while an open connection other than the current one exists. */
  ghost predicate MissesSocket(s: World, step: Step) {
    && (exists i :: OtherOpen(s, i))
    && match step
       case AddChannel(ch) => ch != "" && ch !in s.subs
       case DropChannel(ch) => ch != "" && ch in s.subs
       case _ => false
  }

  predicate OtherOpen(s: World, i: int) {
    0 <= i < |s.sockets| && s.sockets[i].state.Open? && s.sockets[i].registered && s.ws != Some(i)
  }

  lemma ChangeMissesOther(s: World, step: Step, i: int)
    requires Inv(s) && InStepAt(s, i) && OtherOpen(s, i) && MissesSocket(s, step) && Enabled(s, step)
    ensures !InStepAt(Apply(s, step), i)
  {
    var t := Apply(s, step);
    assert t.sockets[i] == s.sockets[i];
    match step {
      case AddChannel(ch) =>
        assert ch in Channels(t.subs) - {""} && ch !in Channels(s.subs) - {""};
      case DropChannel(ch) =>
        WithoutChannels(s.subs, ch);
        assert t.subs == Without(s.subs, ch);
        assert ch !in Channels(t.subs) - {""} && ch in Channels(s.subs) - {""};
    }
  }

  lemma ChangeReachesSocket(s: World, step: Step, i: int)
    requires Inv(s) && InStepAt(s, i) && (step.AddChannel? || step.DropChannel?) && !MissesSocket(s, step)
    ensures InStepAt(Apply(s, step), i)
  {
    if 0 <= i < |s.sockets| && s.sockets[i].state.Open? && s.sockets[i].registered {
      if s.ws == Some(i) {
        SendKeepsSync(s, s.sockets[i], step.ch);
      } else {
        assert OtherOpen(s, i);
        WithoutChannels(s.subs, step.ch);
        assert Channels(With(s.subs, step.ch)) == Channels(s.subs) + {step.ch};
        assert Channels(Apply(s, step).subs) - {""} == Channels(s.subs) - {""};
      }
    }
  }

  lemma OtherStepKeepsInStep(s: World, step: Step, i: int)
    requires Inv(s) && Enabled(s, step) && !step.AddChannel? && !step.DropChannel? && forall j :: InStepAt(s, j)
    ensures InStepAt(Apply(s, step), i)
  {
    assert InStepAt(s, i);
    if step.Opened? && step.i == i {
      assert [] + Resubscribe(s.subs) == Resubscribe(s.subs);
      ReplayResubscribe(s.subs, {});
    }
  }

  /** With overlapping sockets every open connection stays in step exactly until the hook's set is changed while
      one of them is not the current socket. */
  lemma StepKeepsAllInStepIff(s: World, step: Step)
    requires Inv(s) && AllInStep(s) && Enabled(s, step)
    ensures AllInStep(Apply(s, step)) <==> !MissesSocket(s, step)
  {
    if MissesSocket(s, step) {
      var i :| OtherOpen(s, i);
      ChangeMissesOther(s, step, i);
    } else {
      forall i ensures InStepAt(Apply(s, step), i) {
        if step.AddChannel? || step.DropChannel? {
          ChangeReachesSocket(s, step, i);
        } else {
          OtherStepKeepsInStep(s, step, i);
        }
      }
    }
  }

  // ---- the hook's callbacks and the server's handler in place -----------------------------

  /** The hook's refs together with the sockets they talk through. */
  class RealtimeHook {
    var subscriptions: seq<string>
    var wsRef: Option<nat>
    var sockets: seq<Socket>

    function View(): World
      reads this
    {
      World(subscriptions, wsRef, sockets)
    }

    /** The current connection is in step. */
    ghost predicate Valid()
      reads this
    {
      Inv(View())
    }

    constructor ()
      ensures Valid() && View() == START
    {
      subscriptions, wsRef, sockets := [], None, [];
    }

    method ConnectSocket()
      requires Valid()
      modifies this
      ensures Valid()
      ensures View() == Apply(old(View()), Connect)
    {
      StepKeepsInv(View(), Connect);
      if wsRef.Some? && wsRef.value < |sockets| && sockets[wsRef.value].state.Open? {
        return;
      }
      sockets := sockets + [Socket(Connecting, [], true, {})];
      wsRef := Some(|sockets| - 1);
    }

    method OnOpen(i: nat)
      requires Valid()
      requires Enabled(View(), Opened(i))
      modifies this
      ensures Valid()
      ensures View() == Apply(old(View()), Opened(i))
    {
      StepKeepsInv(View(), Opened(i));
      var ws := sockets[i].(state := Open);
      ghost var before := ws.link;
      for n := 0 to |subscriptions|
        invariant ws == sockets[i].(state := Open, link := ws.link)
        invariant ws.link == before + Resubscribe(subscriptions)[..n]
      {
        ws := ws.(link := ws.link + [Subscribe(subscriptions[n])]);
        assert Resubscribe(subscriptions)[..n + 1] == Resubscribe(subscriptions)[..n] + [Subscribe(subscriptions[n])];
      }
      assert Resubscribe(subscriptions)[..|subscriptions|] == Resubscribe(subscriptions);
      sockets := sockets[i := ws];
    }

    method OnClose(i: nat)
      requires Valid()
      requires Enabled(View(), Lost(i))
      modifies this
      ensures Valid()
      ensures View() == Apply(old(View()), Lost(i))
    {
      StepKeepsInv(View(), Lost(i));
      sockets := sockets[i := sockets[i].(state := Closed)];
      wsRef := None;
    }

    method DisconnectSocket()
      requires Valid()
      modifies this
      ensures Valid()
      ensures View() == Apply(old(View()), Disconnect)
    {
      StepKeepsInv(View(), Disconnect);
      if wsRef.Some? && wsRef.value < |sockets| {
        var ws := sockets[wsRef.value];
        if !ws.state.Closed? {
          ws := ws.(state := Closing);
        }
        sockets := sockets[wsRef.value := ws];
        wsRef := None;
      }
    }

    method SubscribeChannel(ch: string)
      requires Valid()
      modifies this
      ensures Valid()
      ensures View() == Apply(old(View()), AddChannel(ch))
    {
      StepKeepsInv(View(), AddChannel(ch));
      if ch !in subscriptions {
        subscriptions := subscriptions + [ch];
      }
      SendMessage(Subscribe(ch));
    }

    method UnsubscribeChannel(ch: string)
      requires Valid()
      modifies this
      ensures Valid()
      ensures View() == Apply(old(View()), DropChannel(ch))
    {
      StepKeepsInv(View(), DropChannel(ch));
      subscriptions := Without(subscriptions, ch);
      SendMessage(Unsubscribe(ch));
    }

    method SendMessage(m: Message)
      modifies this`sockets
      ensures View() == SendIfOpen(old(View()), m)
    {
      if wsRef.Some? && wsRef.value < |sockets| && sockets[wsRef.value].state.Open? {
        var ws := sockets[wsRef.value];
        sockets := sockets[wsRef.value := ws.(link := ws.link + [m])];
      }
    }

    /** The server's read pump takes one message and its handler updates the hub. */
    method HandleMessage(i: nat)
      requires Valid()
      requires Enabled(View(), Deliver(i))
      modifies this`sockets
      ensures Valid()
      ensures View() == Apply(old(View()), Deliver(i))
    {
      StepKeepsInv(View(), Deliver(i));
      var k := sockets[i];
      var m, hub := k.link[0], k.hub;
      if m.channel != "" {
        match m {
          case Subscribe(ch) => hub := hub + {ch};
          case Unsubscribe(ch) => hub := hub - {ch};
        }
      }
      sockets := sockets[i := k.(link := k.link[1..], hub := hub)];
    }
  }
}
