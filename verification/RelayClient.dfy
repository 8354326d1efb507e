// The UDP relay client (src/vpn/relay.rs): session framing, sender checks, relay switching with
// a grace period, and the capture of authentication and resolve frames.
//
// Time is in milliseconds. Sends are taken to succeed; a received datagram is an input.
module RelayClient {
  import opened Basics
  import opened ResolveFrame

  const MAX_PAYLOAD_SIZE := 1500
  const RECEIVE_BUFFER_SIZE := 1600
  const RELAY_SWITCH_GRACE_PERIOD := 2000
  const AUTH_ACK_FRAME_TYPE: Byte := 0xA2

  datatype AuthStatus =
    | Ok | BadFormat | BadSignature | Expired | SidMismatch | ServerMismatch | AuthDisabled | Replay

  // `RelayAuthAckStatus::from_u8(..).unwrap_or(BadFormat)`
  function StatusOf(b: Byte): AuthStatus {
    match b
    case 0 => Ok
    case 2 => BadSignature
    case 3 => Expired
    case 4 => SidMismatch
    case 5 => ServerMismatch
    case 6 => AuthDisabled
    case 7 => Replay
    case _ => BadFormat
  }

  // ----- Specification: the client as a value, one step per call -----

  datatype Client = Client(
    sessionId: seq<Byte>,
    relayAddr: SocketAddr,
    previousRelayAddr: Option<SocketAddr>,
    switchTime: Option<nat>,
    pendingAuthAddr: Option<SocketAddr>,
    lastAuthAck: Option<(SocketAddr, AuthStatus)>,
    lastResolveResponse: Option<Response>,
    packetsReceived: nat)
  {
    // The sender is the current relay, or the one just replaced and still within its grace.
    predicate Accepts(now: nat, from: SocketAddr) {
      from == relayAddr ||
      (previousRelayAddr == Some(from) && switchTime.Some? && now - switchTime.value < RELAY_SWITCH_GRACE_PERIOD)
    }

    predicate CarriesSession(datagram: seq<Byte>) {
      sessionId <= datagram
    }

    // The payload handed to the caller, whose buffer has `room` bytes.
    function Delivered(now: nat, from: SocketAddr, datagram: seq<Byte>, room: nat): Option<seq<Byte>> {
      if pendingAuthAddr != Some(from) && Accepts(now, from) && CarriesSession(datagram) &&
         !([RESOLVE_RESPONSE_FRAME_TYPE] <= datagram[|sessionId|..]) && |datagram| - |sessionId| <= room
      then Some(datagram[|sessionId|..])
      else None
    }

    function AfterReceive(now: nat, from: SocketAddr, datagram: seq<Byte>, room: nat): Client {
      if pendingAuthAddr == Some(from) then
        if |datagram| >= |sessionId| + 2 && CarriesSession(datagram) && datagram[|sessionId|] == AUTH_ACK_FRAME_TYPE
        then this.(lastAuthAck := Some((from, StatusOf(datagram[|sessionId| + 1]))))
        else this
      else if !Accepts(now, from) || !CarriesSession(datagram) then this
      else if [RESOLVE_RESPONSE_FRAME_TYPE] <= datagram[|sessionId|..] then
        match ParseResponse(datagram)
        case None => this
        case Some(response) => this.(lastResolveResponse := Some(response))
      else if Delivered(now, from, datagram, room).Some? then this.(packetsReceived := packetsReceived + 1)
      else this
    }

    function AfterSwitch(now: nat, to: SocketAddr): Client {
      this.(previousRelayAddr := Some(relayAddr), switchTime := Some(now), relayAddr := to)
    }
  }

  function Frame(sessionId: seq<Byte>, payload: seq<Byte>): seq<Byte> {
    sessionId + payload
  }

  function NewClient(sessionId: seq<Byte>, relayAddr: SocketAddr): Client {
    Client(sessionId, relayAddr, None, None, None, None, None, 0)
  }

  // ----- The client of the source -----

  class UdpRelay {
    const sessionId: seq<Byte>
    var relayAddr: SocketAddr
    var previousRelayAddr: Option<SocketAddr>
    var switchTime: Option<nat>
    var pendingAuthAddr: Option<SocketAddr>
    var lastAuthAck: Option<(SocketAddr, AuthStatus)>
    var lastResolveResponse: Option<Response>
    var packetsSent: nat
    var packetsReceived: nat

    ghost predicate Valid() {
      |sessionId| == SESSION_ID_LEN
    }

    ghost function Model(): Client
      reads this
    {
      Client(sessionId, relayAddr, previousRelayAddr, switchTime, pendingAuthAddr, lastAuthAck,
             lastResolveResponse, packetsReceived)
    }

    constructor (addr: SocketAddr, id: seq<Byte>)
      requires |id| == SESSION_ID_LEN
      ensures Valid() && Model() == NewClient(id, addr) && packetsSent == 0
    {
      sessionId := id;
      relayAddr := addr;
      previousRelayAddr, switchTime, pendingAuthAddr := None, None, None;
      lastAuthAck, lastResolveResponse := None, None;
      packetsSent, packetsReceived := 0, 0;
    }

    // An oversized payload is dropped; anything else goes to the current relay, framed.
    method ForwardOutbound(payload: seq<Byte>) returns (sent: Option<(SocketAddr, seq<Byte>)>)
      requires Valid()
      modifies this`packetsSent
      ensures sent == if |payload| > MAX_PAYLOAD_SIZE then None else Some((relayAddr, Frame(sessionId, payload)))
      ensures |payload| <= 1500 ==> sent == Some((relayAddr, sessionId + payload))
      ensures packetsSent == old(packetsSent) + (if sent.Some? then 1 else 0)
    {
      if |payload| > MAX_PAYLOAD_SIZE {
        return None;
      }
      var totalLen := SESSION_ID_LEN + |payload|;
      var packet := new Byte[SESSION_ID_LEN + 1500];
      forall i | 0 <= i < SESSION_ID_LEN {
        packet[i] := sessionId[i];
      }
      forall i | 0 <= i < |payload| {
        packet[SESSION_ID_LEN + i] := payload[i];
      }
      assert packet[..totalLen] == Frame(sessionId, payload);
      packetsSent := packetsSent + 1;
      return Some((relayAddr, packet[..totalLen]));
    }

    method SwitchRelay(now: nat, newAddr: SocketAddr)
      modifies this`previousRelayAddr, this`switchTime, this`relayAddr
      ensures Model() == old(Model()).AfterSwitch(now, newAddr)
    {
      var oldAddr := relayAddr;
      previousRelayAddr := Some(oldAddr);
      switchTime := Some(now);
      relayAddr := newAddr;
    }

    method BeginAuth(target: SocketAddr)
      modifies this`pendingAuthAddr, this`lastAuthAck
      ensures Model() == old(Model()).(pendingAuthAddr := Some(target), lastAuthAck := None)
    {
      pendingAuthAddr := Some(target);
      lastAuthAck := None;
    }

    method EndAuth()
      modifies this`pendingAuthAddr
      ensures Model() == old(Model()).(pendingAuthAddr := None)
    {
      pendingAuthAddr := None;
    }

    // One datagram. On success the payload is the front of `buffer`; otherwise the buffer keeps
    // its contents.
    method ReceiveInbound(now: nat, from: SocketAddr, datagram: seq<Byte>, buffer: array<Byte>)
      returns (received: Option<nat>)
      requires Valid() && |datagram| <= RECEIVE_BUFFER_SIZE
      modifies this`lastAuthAck, this`lastResolveResponse, this`packetsReceived, buffer
      ensures Model() == old(Model()).AfterReceive(now, from, datagram, buffer.Length)
      ensures match old(Model()).Delivered(now, from, datagram, buffer.Length)
              case None => received == None && buffer[..] == old(buffer[..])
              case Some(payload) =>
                received == Some(|payload|) && buffer[..] == payload + old(buffer[..])[|payload|..]
    {
      hide ParseResponse;
      var len := |datagram|;
      var recvBuf := datagram + seq(RECEIVE_BUFFER_SIZE - len, _ => 0);
      assert recvBuf[..len] == datagram;
      if pendingAuthAddr == Some(from) {
        if len >= SESSION_ID_LEN + 2 && recvBuf[..SESSION_ID_LEN] == sessionId &&
           recvBuf[SESSION_ID_LEN] == AUTH_ACK_FRAME_TYPE {
          lastAuthAck := Some((from, StatusOf(recvBuf[SESSION_ID_LEN + 1])));
        }
        return None;
      }
      if from != relayAddr {
        var inGrace := false;
        if previousRelayAddr.Some? && switchTime.Some? {
          inGrace := from == previousRelayAddr.value && now - switchTime.value < RELAY_SWITCH_GRACE_PERIOD;
        }
        if !inGrace {
          return None;
        }
      }
      if len < SESSION_ID_LEN {
        return None;
      }
      if recvBuf[..SESSION_ID_LEN] != sessionId {
        return None;
      }
      assert sessionId <= datagram;
      if len > SESSION_ID_LEN && recvBuf[SESSION_ID_LEN] == RESOLVE_RESPONSE_FRAME_TYPE {
        var parsed := ParseResolveResponse(recvBuf, len);
        if parsed.Some? {
          lastResolveResponse := parsed;
        }
        return None;
      }
      var payloadLen := len - SESSION_ID_LEN;
      if payloadLen > buffer.Length {
        return None;
      }
      forall i | 0 <= i < payloadLen {
        buffer[i] := recvBuf[SESSION_ID_LEN + i];
      }
      packetsReceived := packetsReceived + 1;
      return Some(payloadLen);
    }

    // Any sequence of calls computes the run of their events and hands over its deliveries.
    method Drive(events: seq<Event>) returns (delivered: seq<seq<Byte>>)
      requires Valid()
      requires forall e :: e in events && e.Receive? ==> |e.datagram| <= RECEIVE_BUFFER_SIZE
      modifies this
      ensures Model() == Run(old(Model()), events) && delivered == Deliveries(old(Model()), events)
    {
      delivered := [];
      for i := 0 to |events|
        invariant Model() == Run(old(Model()), events[..i]) && delivered == Deliveries(old(Model()), events[..i])
      {
        assert events[..i + 1][..i] == events[..i] && events[i] in events;
        var payload := Call(events[i]);
        if payload.Some? {
          delivered := delivered + [payload.value];
        }
      }
      assert events[..|events|] == events;
    }

    method Call(e: Event) returns (payload: Option<seq<Byte>>)
      requires Valid() && (e.Receive? ==> |e.datagram| <= RECEIVE_BUFFER_SIZE)
      modifies this
      ensures Model() == Step(old(Model()), e) && payload == Delivery(old(Model()), e)
    {
      hide Client.AfterReceive, Client.Delivered;
      payload := None;
      match e {
        case Switch(at, to) => SwitchRelay(at, to);
        case BeginAuth(_, target) => BeginAuth(target);
        case EndAuth(_) => EndAuth();
        case Receive(at, from, datagram, room) =>
          var buffer := new Byte[room];
          var received := ReceiveInbound(at, from, datagram, buffer);
          if received.Some? {
            payload := Some(buffer[..received.value]);
          }
      }
    }
  }

  // ----- Framing -----

  // A payload of at most 1500 bytes comes back unchanged from the current relay, exactly when
  // it does not start like a resolve response and fits the caller's buffer.
  lemma FramingRoundTrip(c: Client, now: nat, payload: seq<Byte>, room: nat)
    requires |payload| <= MAX_PAYLOAD_SIZE && c.pendingAuthAddr != Some(c.relayAddr)
    ensures c.Delivered(now, c.relayAddr, Frame(c.sessionId, payload), room) ==
            if [RESOLVE_RESPONSE_FRAME_TYPE] <= payload || |payload| > room then None else Some(payload)
  {
    DropPrefix(c.sessionId, payload);
  }

  // ----- Every run -----

  datatype Event =
    | Switch(at: nat, to: SocketAddr)
    | BeginAuth(at: nat, target: SocketAddr)
    | EndAuth(at: nat)
    | Receive(at: nat, from: SocketAddr, datagram: seq<Byte>, room: nat)

  function Step(c: Client, e: Event): Client {
    match e
    case Switch(at, to) => c.AfterSwitch(at, to)
    case BeginAuth(_, target) => c.(pendingAuthAddr := Some(target), lastAuthAck := None)
    case EndAuth(_) => c.(pendingAuthAddr := None)
    case Receive(at, from, datagram, room) => c.AfterReceive(at, from, datagram, room)
  }

  function Run(c: Client, events: seq<Event>): Client {
    if events == [] then c else Step(Run(c, events[..|events| - 1]), events[|events| - 1])
  }

  // What one event hands to the caller, and a whole run.
  function Delivery(c: Client, e: Event): Option<seq<Byte>> {
    if e.Receive? then c.Delivered(e.at, e.from, e.datagram, e.room) else None
  }

  function Deliveries(c: Client, events: seq<Event>): seq<seq<Byte>> {
    if events == [] then []
    else
      var n := |events| - 1;
      var before := Deliveries(c, events[..n]);
      match Delivery(Run(c, events[..n]), events[n])
      case None => before
      case Some(payload) => before + [payload]
  }

  ghost predicate Ordered(events: seq<Event>) {
    forall i, j :: 0 <= i <= j < |events| ==> events[i].at <= events[j].at
  }

  // Just before event `j`, `addr` was the current relay; that ended (if at all) at event `j`.
  ghost predicate CurrentBefore(c: Client, events: seq<Event>, j: nat, addr: SocketAddr)
    requires j <= |events|
  {
    Run(c, events[..j]).relayAddr == addr
  }

  lemma {:induction false} RunKeepsSession(c: Client, events: seq<Event>)
    ensures Run(c, events).sessionId == c.sessionId
  {
    if events != [] {
      RunKeepsSession(c, events[..|events| - 1]);
    }
  }

  lemma {:induction false} PreviousWasCurrent(c: Client, events: seq<Event>)
    requires c.previousRelayAddr == None
    ensures var r := Run(c, events);
            r.previousRelayAddr.Some? ==>
              exists j :: 0 <= j < |events| && CurrentBefore(c, events, j, r.previousRelayAddr.value) &&
                          r.switchTime == Some(events[j].at)
  {
    if events != [] {
      var n := |events| - 1;
      var before := events[..n];
      PreviousWasCurrent(c, before);
      var r := Run(c, events);
      if events[n].Switch? {
        assert CurrentBefore(c, events, n, r.previousRelayAddr.value);
      } else if r.previousRelayAddr.Some? {
        var j :| 0 <= j < n && CurrentBefore(c, before, j, r.previousRelayAddr.value) &&
                 r.switchTime == Some(before[j].at);
        assert before[..j] == events[..j];
        assert CurrentBefore(c, events, j, r.previousRelayAddr.value);
      }
    }
  }

  // Main result: over every run from a fresh client, a delivered payload carries the session
  // id, is no resolve response, is not from the address under authentication, and its sender
  // is the current relay or was the current relay until less than 2 s ago.
  lemma {:induction false} DeliveredFromRecentRelay(c: Client, events: seq<Event>, e: Event)
    requires c.previousRelayAddr == None && Ordered(events + [e]) && e.Receive?
    requires Run(c, events).Delivered(e.at, e.from, e.datagram, e.room).Some?
    ensures var r := Run(c, events);
            var payload := r.Delivered(e.at, e.from, e.datagram, e.room).value;
            e.datagram == Frame(c.sessionId, payload) && !([RESOLVE_RESPONSE_FRAME_TYPE] <= payload) &&
            r.pendingAuthAddr != Some(e.from)
    ensures exists j :: 0 <= j <= |events| && CurrentBefore(c, events, j, e.from) &&
                        (j < |events| ==> e.at - RELAY_SWITCH_GRACE_PERIOD < events[j].at <= e.at)
  {
    RunKeepsSession(c, events);
    var r := Run(c, events);
    if r.relayAddr == e.from {
      assert events[..|events|] == events;
      assert CurrentBefore(c, events, |events|, e.from);
    } else {
      PreviousWasCurrent(c, events);
      var j :| 0 <= j < |events| && CurrentBefore(c, events, j, e.from) && r.switchTime == Some(events[j].at);
      assert (events + [e])[j] == events[j] && (events + [e])[|events|] == e;
    }
  }

  // The grace is one relay deep: after a second switch the first relay is refused at once,
  // even if it was current within the last 2 s.
  lemma SecondSwitchEndsGrace(c: Client, t: nat, u: nat, now: nat, b: SocketAddr, d: SocketAddr)
    requires t <= u <= now
    ensures c.AfterSwitch(t, b).AfterSwitch(u, d).Accepts(now, c.relayAddr) <==>
            c.relayAddr == d || (c.relayAddr == b && now - u < RELAY_SWITCH_GRACE_PERIOD)
  {
  }

  // While an address is being authenticated, a recorded ack is that address's own.
  lemma {:induction false} AckIsFromTarget(c: Client, events: seq<Event>)
    requires c.pendingAuthAddr == None && c.lastAuthAck == None
    ensures var r := Run(c, events);
            r.pendingAuthAddr.Some? && r.lastAuthAck.Some? ==> r.lastAuthAck.value.0 == r.pendingAuthAddr.value
  {
    if events != [] {
      AckIsFromTarget(c, events[..|events| - 1]);
    }
  }

  // ----- What a datagram does, byte by byte -----

  // The status bytes of the relay protocol; any other byte reads as a bad format.
  lemma StatusBytes(b: Byte)
    ensures StatusOf(0) == Ok && StatusOf(2) == BadSignature && StatusOf(3) == Expired && StatusOf(4) == SidMismatch
    ensures StatusOf(5) == ServerMismatch && StatusOf(6) == AuthDisabled && StatusOf(7) == Replay
    ensures b == 1 || b > 7 ==> StatusOf(b) == BadFormat
  {
  }

  // An ack of the address under authentication is recorded with its status, and nothing else of
  // what that address sends has any effect.
  lemma AckIsRecorded(c: Client, now: nat, from: SocketAddr, status: Byte, rest: seq<Byte>, room: nat)
    requires c.pendingAuthAddr == Some(from)
    ensures c.AfterReceive(now, from, c.sessionId + [0xA2, status] + rest, room) == c.(lastAuthAck := Some((from, StatusOf(status))))
  {
    var datagram := c.sessionId + [0xA2, status] + rest;
    assert datagram[|c.sessionId|] == 0xA2 && datagram[|c.sessionId| + 1] == status;
  }

  lemma OnlyAcksCount(c: Client, now: nat, from: SocketAddr, datagram: seq<Byte>, room: nat)
    requires c.pendingAuthAddr == Some(from) && c.AfterReceive(now, from, datagram, room) != c
    ensures |datagram| >= |c.sessionId| + 2 &&
            datagram == c.sessionId + [0xA2, datagram[|c.sessionId| + 1]] + datagram[|c.sessionId| + 2..]
  {
    var n := |c.sessionId|;
    assert datagram == datagram[..n] + [datagram[n], datagram[n + 1]] + datagram[n + 2..];
  }

  // A resolve response of an accepted sender is captured and not delivered.
  lemma ResponseIsCaptured(c: Client, now: nat, from: SocketAddr, r: Response, trailing: seq<Byte>, room: nat)
    requires c.pendingAuthAddr != Some(from) && c.Accepts(now, from) && |c.sessionId| == SESSION_ID_LEN
    requires |r.answers| < 0x100 && forall a :: a in r.answers ==> a.Valid()
    ensures var datagram := PrintResponse(c.sessionId, r) + trailing;
            c.AfterReceive(now, from, datagram, room) == c.(lastResolveResponse := Some(r)) &&
            c.Delivered(now, from, datagram, room) == None
  {
    DecodeEncoded(c.sessionId, r, trailing);
    var datagram := PrintResponse(c.sessionId, r) + trailing;
    assert datagram[..SESSION_ID_LEN] == c.sessionId && datagram[SESSION_ID_LEN] == RESOLVE_RESPONSE_FRAME_TYPE;
    hide ParseResponse, PrintResponse, Client.Accepts;
  }

  // What reaches the caller: every other payload of an accepted sender that fits, and it is counted.
  lemma PayloadIsDelivered(c: Client, now: nat, from: SocketAddr, payload: seq<Byte>, room: nat)
    requires c.pendingAuthAddr != Some(from) && c.Accepts(now, from) && (payload != [] ==> payload[0] != 0xA7) && |payload| <= room
    ensures c.Delivered(now, from, c.sessionId + payload, room) == Some(payload)
    ensures c.AfterReceive(now, from, c.sessionId + payload, room) == c.(packetsReceived := c.packetsReceived + 1)
  {
    DropPrefix(c.sessionId, payload);
  }

  // A datagram of another session, or of a sender that is neither current nor in its grace, has
  // no effect.
  lemma StrangersAreIgnored(c: Client, now: nat, from: SocketAddr, datagram: seq<Byte>, room: nat)
    requires c.pendingAuthAddr != Some(from) && (!c.Accepts(now, from) || !(c.sessionId <= datagram))
    ensures c.AfterReceive(now, from, datagram, room) == c && c.Delivered(now, from, datagram, room) == None
  {
  }

  ghost predicate NoSwitch(events: seq<Event>) {
    forall e :: e in events ==> !e.Switch?
  }

  lemma {:induction false} RelaysUntilSwitch(c: Client, events: seq<Event>)
    requires NoSwitch(events)
    ensures var r := Run(c, events);
            r.relayAddr == c.relayAddr && r.previousRelayAddr == c.previousRelayAddr && r.switchTime == c.switchTime
  {
    hide Client.Delivered, Client.Accepts, ParseResponse;
    if events != [] {
      RelaysUntilSwitch(c, events[..|events| - 1]);
    }
  }

  // Main result: after a switch, and until the next, exactly two senders are accepted: the new
  // relay, and the replaced one for less than 2000 ms.
  lemma AcceptedAfterSwitch(c: Client, at: nat, to: SocketAddr, more: seq<Event>, now: nat, from: SocketAddr)
    requires NoSwitch(more) && now >= at
    ensures Run(Step(c, Switch(at, to)), more).Accepts(now, from) <==> from == to || (from == c.relayAddr && now < at + 2000)
  {
    RelaysUntilSwitch(Step(c, Switch(at, to)), more);
    hide Run;
  }
}
