/**
 * The authoritative side (src/server.js): the shared state and its clamped
 * ±2 update, the identity mask, the presence set of masked identities, and the
 * connection / action / disconnect handlers as methods of one object whose
 * emitted events are appended to an outbox.
 */
module Server {
  import opened Wrappers
  import opened JsString

  // ---------------------------------------------------------------------------
  // Shared state and the clamp rule
  // ---------------------------------------------------------------------------

  /** `{ waterLevel, temperature }`. */
  datatype SharedState = SharedState(waterLevel: int, temperature: int)

  /** Both quantities lie in the closed interval [0, 100]. */
  predicate InRange(s: SharedState) {
    0 <= s.waterLevel <= 100 && 0 <= s.temperature <= 100
  }

  /** Both quantities are even: what every state reachable from `{0, 0}` by ±2 steps satisfies. */
  predicate EvenState(s: SharedState) {
    s.waterLevel % 2 == 0 && s.temperature % 2 == 0
  }

  /** `Math.min(100, v + 2)`: the value closest to `v + 2` that does not exceed 100. */
  function Raise(v: int): (r: int)
    ensures r <= 100 && r <= v + 2
    ensures r == v + 2 || r == 100
  {
    if v + 2 < 100 then v + 2 else 100
  }

  /** `Math.max(0, v - 2)`: the value closest to `v - 2` that is not below 0. */
  function Lower(v: int): (r: int)
    ensures r >= 0 && r >= v - 2
    ensures r == v - 2 || r == 0
  {
    if v - 2 > 0 then v - 2 else 0
  }

  /** The four action tags a client may send. */
  datatype ActionKind = Fill | Drain | Heat | Cool {
    /** FILL and DRAIN act on the water level, HEAT and COOL on the temperature. */
    predicate OnLevel() { this == Fill || this == Drain }
  }

  /** The wire spelling of each tag. */
  function Tag(k: ActionKind): string {
    match k
    case Fill => "FILL"
    case Drain => "DRAIN"
    case Heat => "HEAT"
    case Cool => "COOL"
  }

  /** The `switch (payload)` dispatch: a payload is recognised exactly when it is the spelling of a tag. */
  function ParseAction(payload: string): (r: Option<ActionKind>)
    ensures r.Some? ==> Tag(r.value) == payload
    ensures r.None? ==> forall k :: Tag(k) != payload
  {
    if payload == "FILL" then Some(Fill)
    else if payload == "DRAIN" then Some(Drain)
    else if payload == "HEAT" then Some(Heat)
    else if payload == "COOL" then Some(Cool)
    else None
  }

  /** The store's answer to one action: the new state and the `changed` flag. */
  datatype Applied = Applied(state: SharedState, changed: bool)

  /**
   * The `action` handler's switch (src/server.js:61-89): an increase happens
   * only below 100 and a decrease only above 0; a saturated or unrecognised
   * action leaves the state as it is and reports no change.
   */
  function Apply(s: SharedState, payload: string): (r: Applied)
    ensures r.changed <==> r.state != s
    ensures InRange(s) ==> InRange(r.state)
    ensures InRange(s) && EvenState(s) ==> EvenState(r.state)
    ensures ParseAction(payload).None? ==> r.state == s
    ensures ParseAction(payload).Some? && ParseAction(payload).value.OnLevel() ==> r.state.temperature == s.temperature
    ensures ParseAction(payload).Some? && !ParseAction(payload).value.OnLevel() ==> r.state.waterLevel == s.waterLevel
    ensures payload == "FILL" ==> (r.changed <==> s.waterLevel < 100)
    ensures payload == "DRAIN" ==> (r.changed <==> s.waterLevel > 0)
    ensures payload == "HEAT" ==> (r.changed <==> s.temperature < 100)
    ensures payload == "COOL" ==> (r.changed <==> s.temperature > 0)
    ensures r.changed && payload == "FILL" ==> r.state.waterLevel == Raise(s.waterLevel)
    ensures r.changed && payload == "DRAIN" ==> r.state.waterLevel == Lower(s.waterLevel)
    ensures r.changed && payload == "HEAT" ==> r.state.temperature == Raise(s.temperature)
    ensures r.changed && payload == "COOL" ==> r.state.temperature == Lower(s.temperature)
  {
    match ParseAction(payload)
    case None => Applied(s, false)
    case Some(Fill) =>
      if s.waterLevel < 100 then Applied(s.(waterLevel := Raise(s.waterLevel)), true) else Applied(s, false)
    case Some(Drain) =>
      if s.waterLevel > 0 then Applied(s.(waterLevel := Lower(s.waterLevel)), true) else Applied(s, false)
    case Some(Heat) =>
      if s.temperature < 100 then Applied(s.(temperature := Raise(s.temperature)), true) else Applied(s, false)
    case Some(Cool) =>
      if s.temperature > 0 then Applied(s.(temperature := Lower(s.temperature)), true) else Applied(s, false)
  }

  /**
   * From a reachable state (in range, both quantities even) every change moves
   * exactly one quantity by exactly 2.
   */
  lemma ApplyStepIsTwo(s: SharedState, payload: string)
    requires InRange(s) && EvenState(s)
    ensures var r := Apply(s, payload);
      r.changed ==>
        (r.state.temperature == s.temperature && (r.state.waterLevel == s.waterLevel + 2 || r.state.waterLevel == s.waterLevel - 2)) ||
        (r.state.waterLevel == s.waterLevel && (r.state.temperature == s.temperature + 2 || r.state.temperature == s.temperature - 2))
  {
  }

  /** Level 98: FILL reaches 100 and reports a change, a second FILL is saturated, DRAIN comes back. */
  lemma SaturationScenario()
    ensures Apply(SharedState(98, 50), "FILL") == Applied(SharedState(100, 50), true)
    ensures Apply(SharedState(100, 50), "FILL") == Applied(SharedState(100, 50), false)
    ensures Apply(SharedState(100, 50), "DRAIN") == Applied(SharedState(98, 50), true)
  {
  }

  // ---------------------------------------------------------------------------
  // Identity masking
  // ---------------------------------------------------------------------------

  const MappedPrefix: string := "::ffff:"
  const UnknownIdentity: string := "UNKNOWN"
  const AnonymousIdentity: string := "Anonymous"

  /** `a.b.c.d` for four pieces. */
  function Quad(a: string, b: string, c: string, d: string): string {
    a + "." + b + "." + c + "." + d
  }

  /** The pieces of an address once the first IPv4-mapped prefix is removed. */
  function AddressParts(ip: string): seq<string> {
    Split(ReplaceFirst(ip, MappedPrefix, ""), '.')
  }

  /**
   * `maskIP` (src/server.js:26-37): an absent or empty address is `UNKNOWN`; an
   * address of four dot-separated pieces keeps the first and third; anything
   * else is `Anonymous`.
   */
  function MaskIP(ip: Option<string>): (r: string)
    ensures r == UnknownIdentity <==> ip.None? || ip.value == ""
    ensures r == AnonymousIdentity <==> ip.Some? && ip.value != "" && |AddressParts(ip.value)| != 4
  {
    if ip.None? || ip.value == "" then UnknownIdentity
    else
      var parts := AddressParts(ip.value);
      if |parts| == 4 then
        assert (parts[0] + ".***." + parts[2] + ".***")[|parts[0]|] == '.';
        parts[0] + ".***." + parts[2] + ".***"
      else AnonymousIdentity
  }

  /** A string without colons has no IPv4-mapped prefix anywhere in it. */
  lemma NoMappedPrefix(s: string)
    requires ':' !in s
    ensures forall k: nat :: !OccursAt(s, MappedPrefix, k)
  {
    forall k: nat | k + |MappedPrefix| <= |s| ensures !OccursAt(s, MappedPrefix, k) {
      assert s[k..k + |MappedPrefix|][0] == s[k];
    }
  }

  /** An IPv4 address `a.b.c.d` (pieces without dots or colons) is masked to `a.***.c.***`. */
  lemma MaskQuad(a: string, b: string, c: string, d: string)
    requires '.' !in a && '.' !in b && '.' !in c && '.' !in d
    requires ':' !in a && ':' !in b && ':' !in c && ':' !in d
    ensures MaskIP(Some(Quad(a, b, c, d))) == a + ".***." + c + ".***"
  {
    var ip := Quad(a, b, c, d);
    assert ':' !in ip;
    NoMappedPrefix(ip);
    MaskStripped(ip, a, b, c, d);
  }

  /**
   * Any non-empty address whose first `::ffff:` removed leaves four dot-free
   * pieces `a.b.c.d` is masked to `a.***.c.***` (for instance `::1.2.3.4`
   * becomes `::1.***.3.***`).
   */
  lemma MaskStripped(ip: string, a: string, b: string, c: string, d: string)
    requires ip != ""
    requires '.' !in a && '.' !in b && '.' !in c && '.' !in d
    requires ReplaceFirst(ip, MappedPrefix, "") == Quad(a, b, c, d)
    ensures MaskIP(Some(ip)) == a + ".***." + c + ".***"
  {
    assert [a, b, c, d][1..] == [b, c, d] && [b, c, d][1..] == [c, d] && [c, d][1..] == [d];
    assert Join([c, d], '.') == c + "." + d;
    assert Join([b, c, d], '.') == b + "." + (c + "." + d);
    assert Quad(a, b, c, d) == Join([a, b, c, d], '.');
    SplitJoin([a, b, c, d], '.');
    assert AddressParts(ip) == [a, b, c, d];
  }

  /** The mask does not depend on the second and fourth pieces of an IPv4 address. */
  lemma MaskHidesHiddenPieces(a: string, b: string, c: string, d: string, b': string, d': string)
    requires '.' !in a && '.' !in b && '.' !in c && '.' !in d && '.' !in b' && '.' !in d'
    requires ':' !in a && ':' !in b && ':' !in c && ':' !in d && ':' !in b' && ':' !in d'
    ensures MaskIP(Some(Quad(a, b, c, d))) == MaskIP(Some(Quad(a, b', c, d')))
  {
    MaskQuad(a, b, c, d);
    MaskQuad(a, b', c, d');
  }

  /** An IPv4-mapped IPv6 address `::ffff:x` is masked as `x` itself. */
  lemma MaskMapped(ip: string)
    requires ip != "" && ':' !in ip
    ensures MaskIP(Some(MappedPrefix + ip)) == MaskIP(Some(ip))
  {
    var m := MappedPrefix + ip;
    assert OccursAt(m, MappedPrefix, 0);
    assert m[7..] == ip;
    assert ReplaceFirst(m, MappedPrefix, "") == ip;
    NoMappedPrefix(ip);
  }

  /** A non-empty address without colons is `Anonymous` exactly when it does not have three dots. */
  lemma MaskAnonymous(ip: string)
    requires ip != "" && ':' !in ip
    ensures MaskIP(Some(ip)) == AnonymousIdentity <==> Count(ip, '.') != 3
  {
    NoMappedPrefix(ip);
  }

  // ---------------------------------------------------------------------------
  // Presence: a JavaScript Set of identities, kept in insertion order
  // ---------------------------------------------------------------------------

  /** No identity occurs twice. */
  predicate Distinct(users: seq<string>) {
    forall i, j :: 0 <= i < j < |users| ==> users[i] != users[j]
  }

  /** `connectedUsers.add(x)`. */
  function SetAdd(users: seq<string>, x: string): (r: seq<string>)
    ensures forall y :: y in r <==> y in users || y == x
    ensures Distinct(users) ==> Distinct(r)
    ensures |r| == if x in users then |users| else |users| + 1
    ensures r[..|users|] == users
  {
    if x in users then users else users + [x]
  }

  /** `connectedUsers.delete(x)`. */
  function SetDelete(users: seq<string>, x: string): (r: seq<string>)
    ensures forall y :: y in r <==> y in users && y != x
    ensures Distinct(users) ==> Distinct(r)
    ensures x !in users ==> r == users
    ensures Distinct(users) && x in users ==> |r| == |users| - 1
  {
    if users == [] then []
    else
      assert Distinct(users) ==> Distinct(users[1..]) && users[0] !in users[1..];
      if users[0] == x then SetDelete(users[1..], x)
    else [users[0]] + SetDelete(users[1..], x)
  }

  /** Deleting a present identity removes its one entry and keeps the others in their order. */
  lemma {:induction false} SetDeleteKeepsOrder(users: seq<string>, x: string, k: int)
    requires Distinct(users)
    requires 0 <= k < |users| && users[k] == x
    ensures SetDelete(users, x) == users[..k] + users[k + 1..]
  {
    var rest := users[k + 1..];
    assert x !in rest by {
      forall i | 0 <= i < |rest| ensures rest[i] != x {
        assert rest[i] == users[k + 1 + i];
      }
    }
    assert x !in users[..k] by {
      forall i | 0 <= i < k ensures users[..k][i] != x {
        assert users[..k][i] == users[i];
      }
    }
    assert [x] + rest == users[k..];
    assert SetDelete([x] + rest, x) == rest by {
      assert ([x] + rest)[1..] == rest;
    }
    assert users == users[..k] + ([x] + rest);
    SetDeletePrefix(users[..k], [x] + rest, x);
  }

  /** Deleting an identity that is absent from a prefix leaves that prefix in place. */
  lemma {:induction false} SetDeletePrefix(p: seq<string>, t: seq<string>, x: string)
    requires x !in p
    ensures SetDelete(p + t, x) == p + SetDelete(t, x)
    decreases |p|
  {
    if p == [] {
      assert p + t == t;
    } else {
      calc {
        SetDelete(p + t, x);
      == { assert (p + t)[0] == p[0] && (p + t)[1..] == p[1..] + t; }
        [p[0]] + SetDelete(p[1..] + t, x);
      == { SetDeletePrefix(p[1..], t, x); }
        [p[0]] + (p[1..] + SetDelete(t, x));
      == { assert [p[0]] + p[1..] == p; }
        p + SetDelete(t, x);
      }
    }
  }

  /** Adding an identity that is already present changes nothing. */
  lemma SetAddIdempotent(users: seq<string>, x: string)
    ensures SetAdd(SetAdd(users, x), x) == SetAdd(users, x)
  {
  }

  /** The elements of a sequence, as a set. */
  function Elements(users: seq<string>): set<string> {
    set i | 0 <= i < |users| :: users[i]
  }

  /** The reported user count is the number of distinct identities. */
  lemma {:induction false} DistinctCount(users: seq<string>)
    requires Distinct(users)
    ensures |Elements(users)| == |users|
  {
    if users != [] {
      var rest := users[1..];
      DistinctCount(rest);
      assert Elements(users) == {users[0]} + Elements(rest);
      assert users[0] !in Elements(rest);
    }
  }

  // ---------------------------------------------------------------------------
  // Emitted events and the handshake-first discipline
  // ---------------------------------------------------------------------------

  /** A socket id. */
  type ConnId = nat

  /** The `init` payload: `{ state, userIp, userList }`. */
  datatype Handshake = Handshake(state: SharedState, userIp: string, userList: seq<string>)

  /**
   * What the server emits: `socket.emit('init', …)` to one connection, or
   * `io.emit('update', …)` / `io.emit('updateUserList', …)` to the set of
   * connections open at that moment.
   */
  datatype Event =
    | Init(conn: ConnId, data: Handshake)
    | Update(to: set<ConnId>, state: SharedState)
    | UserList(to: set<ConnId>, users: seq<string>)

  /** The connections that receive an event. */
  function Recipients(e: Event): set<ConnId> {
    match e
    case Init(c, _) => {c}
    case Update(to, _) => to
    case UserList(to, _) => to
  }

  /** The connections that have been sent their `init` somewhere in `log`. */
  function Greeted(log: seq<Event>): set<ConnId> {
    if log == [] then {}
    else
      var last := log[|log| - 1];
      Greeted(log[..|log| - 1]) + (if last.Init? then {last.conn} else {})
  }

  /** An event may follow a log whose greeted connections are `ready`. */
  predicate Admissible(ready: set<ConnId>, e: Event) {
    match e
    case Init(c, _) => c !in ready
    case Update(to, _) => to <= ready
    case UserList(to, _) => to <= ready
  }

  /** Every event in `log` is admissible after the events before it. */
  predicate Wellformed(log: seq<Event>) {
    log == [] ||
    (Wellformed(log[..|log| - 1]) && Admissible(Greeted(log[..|log| - 1]), log[|log| - 1]))
  }

  /** Appending one event to a log. */
  lemma Append(log: seq<Event>, e: Event)
    ensures Greeted(log + [e]) == Greeted(log) + (if e.Init? then {e.conn} else {})
    ensures Wellformed(log + [e]) <==> Wellformed(log) && Admissible(Greeted(log), e)
  {
    assert (log + [e])[..|log|] == log;
  }

  /** A greeted connection has an `init` in the log. */
  lemma {:induction false} GreetedHasInit(log: seq<Event>, c: ConnId)
    requires c in Greeted(log)
    ensures exists i :: 0 <= i < |log| && log[i].Init? && log[i].conn == c
    decreases |log|
  {
    var prefix := log[..|log| - 1];
    if c in Greeted(prefix) {
      GreetedHasInit(prefix, c);
      var i :| 0 <= i < |prefix| && prefix[i].Init? && prefix[i].conn == c;
      assert log[i] == prefix[i];
    }
  }

  /**
   * In a well-formed log every connection that receives an event has received
   * its `init` earlier.
   */
  lemma {:induction false} HandshakeFirst(log: seq<Event>, j: int, c: ConnId)
    requires Wellformed(log)
    requires 0 <= j < |log| && c in Recipients(log[j]) && !log[j].Init?
    ensures exists i :: 0 <= i < j && log[i].Init? && log[i].conn == c
    decreases |log|
  {
    var prefix := log[..|log| - 1];
    if j < |log| - 1 {
      assert prefix[j] == log[j];
      HandshakeFirst(prefix, j, c);
      var i :| 0 <= i < j && prefix[i].Init? && prefix[i].conn == c;
      assert log[i] == prefix[i];
    } else {
      assert c in Greeted(prefix);
      GreetedHasInit(prefix, c);
      var i :| 0 <= i < |prefix| && prefix[i].Init? && prefix[i].conn == c;
      assert log[i] == prefix[i];
    }
  }

  /** In a well-formed log no connection receives two `init` events. */
  lemma {:induction false} HandshakeOnce(log: seq<Event>, i: int, j: int)
    requires Wellformed(log)
    requires 0 <= i < j < |log| && log[i].Init? && log[j].Init?
    ensures log[i].conn != log[j].conn
    decreases |log|
  {
    var prefix := log[..|log| - 1];
    if j < |log| - 1 {
      assert prefix[i] == log[i] && prefix[j] == log[j];
      HandshakeOnce(prefix, i, j);
    } else {
      GreetedContainsInits(prefix, i);
    }
  }

  /** Every connection sent an `init` in `log` is greeted. */
  lemma {:induction false} GreetedContainsInits(log: seq<Event>, i: int)
    requires 0 <= i < |log| && log[i].Init?
    ensures log[i].conn in Greeted(log)
    decreases |log|
  {
    var prefix := log[..|log| - 1];
    if i < |log| - 1 {
      assert prefix[i] == log[i];
      GreetedContainsInits(prefix, i);
    }
  }

  // ---------------------------------------------------------------------------
  // The server object
  // ---------------------------------------------------------------------------

  /**
   * `globalState`, `connectedUsers` and the open sockets (each with the masked
   * identity its handlers close over), with every event emitted so far.
   */
  class Hub {
    var waterLevel: int
    var temperature: int
    var connectedUsers: seq<string>
    var sockets: map<ConnId, string>
    var nextId: ConnId
    var outbox: seq<Event>

    function State(): SharedState
      reads this
    {
      SharedState(waterLevel, temperature)
    }

    /**
     * The state is in range and reachable; presence is a set of identities of
     * open sockets; every open socket has been greeted, and the outbox respects
     * handshake-before-broadcast.
     */
    ghost predicate Valid()
      reads this
    {
      && InRange(State()) && EvenState(State())
      && Distinct(connectedUsers)
      && (forall u :: u in connectedUsers ==> u in sockets.Values)
      && (forall c :: c in Greeted(outbox) ==> c < nextId)
      && sockets.Keys <= Greeted(outbox)
      && Wellformed(outbox)
    }

    /** Server start: `{ waterLevel: 0, temperature: 0 }`, nobody connected. */
    constructor ()
      ensures Valid()
      ensures State() == SharedState(0, 0)
      ensures connectedUsers == [] && sockets == map[] && outbox == []
    {
      waterLevel, temperature := 0, 0;
      connectedUsers, sockets := [], map[];
      nextId, outbox := 0, [];
    }

    /**
     * The `connection` handler: register the masked identity, send `init` to the
     * new socket (its user list already holds the identity), then broadcast the
     * user list to every open socket including the new one.
     */
    method Connect(rawIp: string) returns (id: ConnId)
      requires Valid()
      modifies this
      ensures Valid()
      ensures id !in old(sockets) && sockets == old(sockets)[id := MaskIP(Some(rawIp))]
      ensures connectedUsers == SetAdd(old(connectedUsers), MaskIP(Some(rawIp)))
      ensures MaskIP(Some(rawIp)) in connectedUsers
      ensures State() == old(State())
      ensures outbox == old(outbox) + [Init(id, Handshake(State(), MaskIP(Some(rawIp)), connectedUsers)),
                                       UserList(sockets.Keys, connectedUsers)]
    {
      var maskedIp := MaskIP(Some(rawIp));
      var was := sockets;
      id := nextId;
      assert id !in was;
      nextId := nextId + 1;
      sockets := sockets[id := maskedIp];
      connectedUsers := SetAdd(connectedUsers, maskedIp);
      forall u | u in connectedUsers ensures u in sockets.Values {
        if u != maskedIp {
          var c :| c in was && was[c] == u;
          assert sockets[c] == u;
        } else {
          assert sockets[id] == u;
        }
      }
      var hello := Init(id, Handshake(State(), maskedIp, connectedUsers));
      Append(outbox, hello);
      outbox := outbox + [hello];
      var list := UserList(sockets.Keys, connectedUsers);
      Append(outbox, list);
      outbox := outbox + [list];
    }

    /**
     * The `action` handler's switch: apply the clamped step to the stored
     * fields in place and report whether a value moved.
     */
    method ApplyAction(payload: string) returns (changed: bool)
      modifies this`waterLevel, this`temperature
      ensures Apply(old(State()), payload) == Applied(State(), changed)
    {
      changed := false;
      if payload == "FILL" {
        if waterLevel < 100 {
          waterLevel := Raise(waterLevel);
          changed := true;
        }
      } else if payload == "DRAIN" {
        if waterLevel > 0 {
          waterLevel := Lower(waterLevel);
          changed := true;
        }
      } else if payload == "HEAT" {
        if temperature < 100 {
          temperature := Raise(temperature);
          changed := true;
        }
      } else if payload == "COOL" {
        if temperature > 0 {
          temperature := Lower(temperature);
          changed := true;
        }
      }
    }

    /**
     * The `action` handler: apply the step, then broadcast the new state
     * exactly when it changed.
     */
    method Action(payload: string) returns (changed: bool)
      requires Valid()
      modifies this
      ensures Valid()
      ensures Apply(old(State()), payload) == Applied(State(), changed)
      ensures connectedUsers == old(connectedUsers) && sockets == old(sockets)
      ensures outbox == old(outbox) + (if changed then [Update(sockets.Keys, State())] else [])
    {
      changed := ApplyAction(payload);
      if changed {
        var e := Update(sockets.Keys, State());
        Append(outbox, e);
        outbox := outbox + [e];
      }
    }

    /**
     * The `disconnect` handler: delete the socket's identity from presence (even
     * if another open socket shares it) and broadcast the list to the sockets
     * still open.
     */
    method Disconnect(id: ConnId)
      requires Valid()
      requires id in sockets
      modifies this
      ensures Valid()
      ensures sockets == old(sockets) - {id}
      ensures connectedUsers == SetDelete(old(connectedUsers), old(sockets)[id])
      ensures State() == old(State())
      ensures outbox == old(outbox) + [UserList(sockets.Keys, connectedUsers)]
    {
      var maskedIp := sockets[id];
      var was := sockets;
      sockets := sockets - {id};
      connectedUsers := SetDelete(connectedUsers, maskedIp);
      forall u | u in connectedUsers ensures u in sockets.Values {
        var c :| c in was && was[c] == u;
        assert c != id;
        assert sockets[c] == u;
      }
      var list := UserList(sockets.Keys, connectedUsers);
      Append(outbox, list);
      outbox := outbox + [list];
    }
  }
}
