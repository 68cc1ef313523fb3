/**
 * The server's store and the client's local simulation implement the same
 * clamp rule: they agree step for step on in-range states, and so along any
 * sequence of actions. Two end-to-end runs of the protocol close the file.
 */
module Consistency {
  import opened Wrappers
  import opened Server
  import opened App

  /**
   * The guarded server step and the unguarded client step agree on every
   * payload exactly when the state is in range: above 100 a client FILL pulls
   * the level down to 100, below 0 a client DRAIN pulls it up to 0, and the
   * server leaves both alone.
   */
  lemma StepsAgreeIffInRange(s: SharedState)
    ensures (forall p :: LocalApply(s, p) == Apply(s, p).state) <==> InRange(s)
  {
    if InRange(s) {
      forall p ensures LocalApply(s, p) == Apply(s, p).state {
      }
    } else {
      if s.waterLevel > 100 {
        assert LocalApply(s, "FILL") != Apply(s, "FILL").state;
      } else if s.waterLevel < 0 {
        assert LocalApply(s, "DRAIN") != Apply(s, "DRAIN").state;
      } else if s.temperature > 100 {
        assert LocalApply(s, "HEAT") != Apply(s, "HEAT").state;
      } else {
        assert LocalApply(s, "COOL") != Apply(s, "COOL").state;
      }
    }
  }

  /** The states the server's store passes through on a sequence of payloads. */
  function ServerTrace(s: SharedState, payloads: seq<string>): (t: seq<SharedState>)
    ensures |t| == |payloads|
    decreases |payloads|
  {
    if payloads == [] then []
    else
      var next := Apply(s, payloads[0]).state;
      [next] + ServerTrace(next, payloads[1..])
  }

  /** The states an offline client passes through on a sequence of actions. */
  function LocalTrace(s: SharedState, actions: seq<string>): (t: seq<SharedState>)
    ensures |t| == |actions|
    decreases |actions|
  {
    if actions == [] then []
    else
      var next := LocalApply(s, actions[0]);
      [next] + LocalTrace(next, actions[1..])
  }

  /** Every state on a server trace from an in-range state is in range. */
  lemma {:induction false} ServerTraceInRange(s: SharedState, payloads: seq<string>)
    requires InRange(s)
    ensures forall i :: 0 <= i < |payloads| ==> InRange(ServerTrace(s, payloads)[i])
    decreases |payloads|
  {
    if payloads != [] {
      var next := Apply(s, payloads[0]).state;
      ServerTraceInRange(next, payloads[1..]);
      forall i | 0 <= i < |payloads| ensures InRange(ServerTrace(s, payloads)[i]) {
        if i > 0 {
          assert ServerTrace(s, payloads)[i] == ServerTrace(next, payloads[1..])[i - 1];
        }
      }
    }
  }

  /** Every state on an offline client trace from an in-range state is in range. */
  lemma {:induction false} LocalTraceInRange(s: SharedState, actions: seq<string>)
    requires InRange(s)
    ensures forall i :: 0 <= i < |actions| ==> InRange(LocalTrace(s, actions)[i])
    decreases |actions|
  {
    if actions != [] {
      var next := LocalApply(s, actions[0]);
      LocalTraceInRange(next, actions[1..]);
      forall i | 0 <= i < |actions| ensures InRange(LocalTrace(s, actions)[i]) {
        if i > 0 {
          assert LocalTrace(s, actions)[i] == LocalTrace(next, actions[1..])[i - 1];
        }
      }
    }
  }

  /** From the same in-range state, server and offline client follow identical trajectories. */
  lemma {:induction false} TracesAgree(s: SharedState, payloads: seq<string>)
    requires InRange(s)
    ensures ServerTrace(s, payloads) == LocalTrace(s, payloads)
    decreases |payloads|
  {
    if payloads != [] {
      StepsAgreeIffInRange(s);
      assert LocalApply(s, payloads[0]) == Apply(s, payloads[0]).state;
      TracesAgree(Apply(s, payloads[0]).state, payloads[1..]);
    }
  }

  /**
   * Two sockets from the same address share one presence entry; when the first
   * disconnects the entry disappears although the second socket is still open.
   */
  method SharedIdentityScenario(address: string) returns (secondOpen: bool, listed: bool, reported: nat)
    ensures secondOpen && !listed && reported == 0
  {
    var hub := new Hub();
    var first := hub.Connect(address);
    var second := hub.Connect(address);
    assert hub.connectedUsers == [MaskIP(Some(address))];
    hub.Disconnect(first);
    secondOpen := second in hub.sockets;
    listed := MaskIP(Some(address)) in hub.connectedUsers;
    reported := |hub.connectedUsers|;
  }

  /**
   * An online client that forwards FILL converges on the server's state once
   * the resulting `update` arrives; an offline client that receives the same
   * broadcast ignores it and keeps its own copy.
   */
  method ReplicaScenario(address: string) returns (online: SharedState, offline: SharedState, authority: SharedState, broadcast: bool)
    ensures broadcast
    ensures online == authority == SharedState(2, 0)
    ensures offline == SharedState(0, 2)
  {
    var hub := new Hub();
    var alice := new Controller();
    var bob := new Controller();
    alice.SetMode(true);
    var a := hub.Connect(address);
    var hello := hub.outbox[0];
    assert hello.data.state == SharedState(0, 0);
    alice.OnInit(hello.data);
    alice.HandleAction("FILL");
    var forwarded := alice.outbound[|alice.outbound| - 1].action;
    assert forwarded == "FILL";
    broadcast := hub.Action(forwarded);
    var pushed := hub.outbox[|hub.outbox| - 1].state;
    assert pushed == SharedState(2, 0);
    alice.OnUpdate(pushed);
    bob.HandleAction("HEAT");
    bob.OnUpdate(pushed);
    online, offline, authority := alice.localState, bob.localState, hub.State();
  }
}
