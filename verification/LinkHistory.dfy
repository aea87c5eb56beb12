/** What the server is subscribed to, told from the history of the hook alone. */
module LinkHistory {
  import opened Wrappers
  import opened History
  import opened RealtimeLink

  lemma {:induction false} RunSnoc(s: World, steps: seq<Step>, last: Step)
    requires Runs(s, steps + [last])
    ensures Runs(s, steps) && Enabled(After(s, steps), last)
    ensures After(s, steps + [last]) == Apply(After(s, steps), last)
    decreases |steps|
  {
    if steps == [] {
      assert steps + [last] == [last] && [last][1..] == [];
    } else {
      assert (steps + [last])[1..] == steps[1..] + [last] && (steps + [last])[0] == steps[0];
      RunSnoc(Apply(s, steps[0]), steps[1..], last);
    }
  }

  lemma StepOnSubs(s: World, step: Step, ch: string)
    requires Enabled(s, step)
    ensures ch in Apply(s, step).subs <==> step == AddChannel(ch) || (ch in s.subs && step != DropChannel(ch))
  {
    if step.DropChannel? {
      WithoutChannels(s.subs, step.ch);
      assert ch in Without(s.subs, step.ch) <==> ch in Channels(Without(s.subs, step.ch));
      assert ch in s.subs <==> ch in Channels(s.subs);
    }
  }

  /** The hook's set holds exactly the channels asked for and not given up since, whatever happened to its sockets. */
  lemma {:induction false} SubsFollowHistory(steps: seq<Step>, ch: string)
    requires Runs(START, steps)
    ensures ch in After(START, steps).subs <==> Since(steps, AddChannel(ch), DropChannel(ch))
    decreases |steps|
  {
    if steps != [] {
      var init, last := steps[..|steps| - 1], steps[|steps| - 1];
      assert steps == init + [last];
      RunSnoc(START, init, last);
      SubsFollowHistory(init, ch);
      StepOnSubs(After(START, init), last, ch);
      SinceSnoc(init, last, AddChannel(ch), DropChannel(ch));
    }
  }

  /** So does the server, for every channel with a name, once the open connection's messages have arrived: from the
      first to the last reconnect, it holds exactly what the hook asked for and has not given up since. */
  lemma ServerFollowsHistory(steps: seq<Step>, ch: string)
    requires Runs(START, steps) && ch != ""
    requires var s := After(START, steps); CanSend(s) && s.sockets[s.ws.value].registered
    ensures var s := After(START, steps); var i := s.ws.value;
      var drain := seq(|s.sockets[i].link|, _ => Deliver(i));
      && Runs(s, drain) && i < |After(s, drain).sockets|
      && (ch in After(s, drain).sockets[i].hub <==> Since(steps, AddChannel(ch), DropChannel(ch)))
  {
    var s := After(START, steps);
    DrainedSetsAgree(steps);
    SubsFollowHistory(steps, ch);
    DrainAppliesLink(s, s.ws.value);
    assert ch in s.subs <==> ch in Channels(s.subs);
  }

  /** Only one thing opens a way to the server: a connect while no current socket is open, and that socket's open
      event. */
  lemma SocketLaw(s: World, i: nat)
    ensures var open := s.ws.Some? && s.ws.value < |s.sockets| && s.sockets[s.ws.value].state == Open;
      var t := Apply(s, Connect);
      t == if open then s else World(s.subs, Some(|s.sockets|), s.sockets + [Socket(Connecting, [], true, {})])
    ensures Enabled(s, Opened(i)) ==>
      var t := Apply(s, Opened(i));
      && t.subs == s.subs && t.ws == s.ws && |t.sockets| == |s.sockets| && t.sockets[i].state == Open
      && (forall j :: 0 <= j < |s.sockets| && j != i ==> t.sockets[j] == s.sockets[j])
      && |t.sockets[i].link| == |s.sockets[i].link| + |s.subs|
      && forall k :: 0 <= k < |s.subs| ==> t.sockets[i].link[|s.sockets[i].link| + k] == Subscribe(s.subs[k])
    ensures Enabled(s, Lost(i)) ==>
      var t := Apply(s, Lost(i));
      t.ws == None && t.subs == s.subs && t.sockets == s.sockets[i := s.sockets[i].(state := Closed)]
    ensures s.ws.Some? && s.ws.value < |s.sockets| ==>
      var t := Apply(s, Disconnect);
      && t.ws == None && t.subs == s.subs && |t.sockets| == |s.sockets|
      && t.sockets[s.ws.value].state == if s.sockets[s.ws.value].state == Closed then Closed else Closing
  {
  }
}
