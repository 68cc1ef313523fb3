/**
 * The browser side (src/public/app.js): a controller that either mirrors the
 * server's pushed state (online) or runs the clamp rule on its own copy
 * (offline). What it sends through the socket is appended to an outbound queue.
 */
module App {
  import opened Server

  /**
   * The offline `switch (actionType)` of `handleAction` (src/public/app.js:103-116):
   * the step is clamped but, unlike the server, not guarded, and an unknown tag
   * falls through every case.
   */
  function LocalApply(s: SharedState, actionType: string): (r: SharedState)
    ensures InRange(s) ==> InRange(r)
    ensures InRange(s) && EvenState(s) ==> EvenState(r)
    ensures ParseAction(actionType).None? ==> r == s
    ensures ParseAction(actionType).Some? && ParseAction(actionType).value.OnLevel() ==> r.temperature == s.temperature
    ensures ParseAction(actionType).Some? && !ParseAction(actionType).value.OnLevel() ==> r.waterLevel == s.waterLevel
    ensures actionType == "FILL" ==> r.waterLevel <= 100 && r.waterLevel <= s.waterLevel + 2 && (r.waterLevel == s.waterLevel + 2 || r.waterLevel == 100)
    ensures actionType == "DRAIN" ==> r.waterLevel >= 0 && r.waterLevel >= s.waterLevel - 2 && (r.waterLevel == s.waterLevel - 2 || r.waterLevel == 0)
    ensures actionType == "HEAT" ==> r.temperature <= 100 && r.temperature <= s.temperature + 2 && (r.temperature == s.temperature + 2 || r.temperature == 100)
    ensures actionType == "COOL" ==> r.temperature >= 0 && r.temperature >= s.temperature - 2 && (r.temperature == s.temperature - 2 || r.temperature == 0)
  {
    match ParseAction(actionType)
    case None => s
    case Some(Fill) => s.(waterLevel := Raise(s.waterLevel))
    case Some(Drain) => s.(waterLevel := Lower(s.waterLevel))
    case Some(Heat) => s.(temperature := Raise(s.temperature))
    case Some(Cool) => s.(temperature := Lower(s.temperature))
  }

  /** What the client does through its socket: `emit('action', …)`, `connect()`, `disconnect()`. */
  datatype Request = Emit(action: string) | Open | Close

  /** `isOnline`, `localState` and the requests sent so far. */
  class Controller {
    var isOnline: bool
    var localState: SharedState
    var outbound: seq<Request>

    /** Page load: offline, `{ waterLevel: 0, temperature: 0 }`, socket not connected. */
    constructor ()
      ensures !isOnline && localState == SharedState(0, 0) && outbound == []
    {
      isOnline := false;
      localState := SharedState(0, 0);
      outbound := [];
    }

    /**
     * `handleAction`: online, forward the tag and leave the copy alone; offline,
     * apply the clamp rule to the copy in place.
     */
    method HandleAction(actionType: string)
      modifies this
      ensures isOnline == old(isOnline)
      ensures old(isOnline) ==> localState == old(localState) && outbound == old(outbound) + [Emit(actionType)]
      ensures !old(isOnline) ==> localState == LocalApply(old(localState), actionType) && outbound == old(outbound)
    {
      if isOnline {
        outbound := outbound + [Emit(actionType)];
      } else {
        if actionType == "FILL" {
          localState := localState.(waterLevel := Raise(localState.waterLevel));
        } else if actionType == "DRAIN" {
          localState := localState.(waterLevel := Lower(localState.waterLevel));
        } else if actionType == "HEAT" {
          localState := localState.(temperature := Raise(localState.temperature));
        } else if actionType == "COOL" {
          localState := localState.(temperature := Lower(localState.temperature));
        }
      }
    }

    /**
     * `modeToggle.onchange`: take the checkbox value, then connect or disconnect
     * the socket; the last-known copy is kept either way.
     */
    method SetMode(checked: bool)
      modifies this
      ensures isOnline == checked
      ensures localState == old(localState)
      ensures outbound == old(outbound) + [if checked then Open else Close]
    {
      isOnline := checked;
      if isOnline {
        outbound := outbound + [Open];
      } else {
        outbound := outbound + [Close];
      }
    }

    /** The `init` handler: adopt the handshake's state whatever the mode. */
    method OnInit(data: Handshake)
      modifies this
      ensures localState == data.state
      ensures isOnline == old(isOnline) && outbound == old(outbound)
    {
      localState := data.state;
    }

    /** The `update` handler: adopt the pushed state only while online. */
    method OnUpdate(newState: SharedState)
      modifies this
      ensures localState == if old(isOnline) then newState else old(localState)
      ensures isOnline == old(isOnline) && outbound == old(outbound)
    {
      if isOnline {
        localState := newState;
      }
    }
  }
}
