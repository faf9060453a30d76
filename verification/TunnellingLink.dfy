/**
A tunnel: one client and the server's channel it was given, over a datagram network that may lose, repeat
and reorder whatever was sent.

Requests are counted from the start of the tunnel, on each side. The count is not transmitted; the eight-bit
number is. Runs are unrestricted. What a theorem asks of the network is said beside it: at most that no
datagram is held back until 255 later requests have been issued (256 for an acknowledgement).
*/
module TunnellingLink {

  import opened Results
  import opened TunnellingSession
  import opened TunnellingExchanges
  import opened TunnellingClient
  import opened TunnellingServer

  /** A request on the wire. */
  datatype Frame = Frame(n: nat, sequence: Byte, packet: Packet)

  /** The server's acknowledgement on the wire. The client's are no service the server knows, and change nothing. */
  datatype Ack = Ack(n: nat, sequence: Byte)

  /** A request handed to the application. */
  datatype Delivery = Delivery(n: nat, packet: Packet)

  /** A request that reached the client, and whether it came in a way that delivers it if it is accepted. */
  datatype Hearing = Hearing(n: nat, kept: bool)

  /** The session, what the client issued and put on the wire, and what it accepted and delivered. */
  datatype ClientEnd = ClientEnd(session: Session, issued: seq<Packet>, wire: set<Frame>,
                                 accepted: seq<Hearing>, delivered: seq<Delivery>)

  /** The channel, what the server issued and put on the wire, the fate of each request it accepted, its acknowledgements. */
  datatype ServerEnd = ServerEnd(slot: Slot, issued: seq<Packet>, wire: set<Frame>,
                                 fates: seq<bool>, delivered: seq<Delivery>, acks: set<Ack>)

  datatype World = World(channel: Byte, client: ClientEnd, server: ServerEnd)

  datatype Move =
    | Issue(packet: Packet, deadline: nat)
    | Retransmit
    | TakeAck(ack: Ack)
    | Receive(frame: Frame, now: nat, ackSent: bool, opens: bool)    // while the client waits for a telegram
    | Overhear(frame: Frame, now: nat)                               // while it waits for any other answer
    | Housekeep(event: Event)
    | Push(packet: Packet, away: bool)                               // the server sends, or fails to
    | Take(frame: Frame, now: nat, ackSent: bool, handed: bool)      // `handed`: someone takes the event
    | Release                                                        // the channel is given up

  /** The session's other events: timeouts, heartbeats, inactivity, disconnecting. */
  predicate Housekeeping(e: Event) {
    || e.EShutdown? || e.EDisconnect? || e.ENoteActivity? || e.ENoteHeartbeat? || e.EConnectResponse? || e.EConnectTimeout?
    || e.EHeartbeatResponse? || e.EHeartbeatRequest? || e.EDisconnectRequest? || e.EDisconnectResponse? || e.ETimeout?
    || e.EDisconnectTimeout? || e.EHeartbeatTimeout? || e.ECheckHeartbeat? || e.ECheckInactivity?
  }

  predicate CanMove(w: World, m: Move) {
    match m
    case Issue(packet, _) => packet != [] && Send(w.client.session, w.client.session.channel, packet, 0).1 == Done
    case Retransmit => RetryPacket(w.client.session) != [] && w.client.issued != []
    case TakeAck(a) => a in w.server.acks
    case Receive(f, _, _, _) => f in w.server.wire
    case Overhear(f, _) => f in w.server.wire
    case Housekeep(e) => Housekeeping(e)
    case Push(packet, _) => packet != [] && w.server.slot.active
    case Take(f, _, _, _) => f in w.client.wire
    case Release => true
  }

  // ---------------------------------------------------------------- the client's side

  /** The frame as the session sees it. */
  function Indication(w: World, f: Frame): Event {
    EIndication(w.channel, f.sequence, f.packet == [])
  }

  predicate Accepts(w: World, f: Frame) {
    Apply(w.client.session, Indication(w, f)).1 == Done
  }

  /** A request reaching the client in a way that delivers it, if it is accepted. */
  predicate Delivers(m: Move) {
    m.Receive? && m.ackSent && m.opens
  }

  function Received(w: World, m: Move): ClientEnd
    requires m.Receive? || m.Overhear?
  {
    var c, f := w.client, m.frame;
    var accepted := c.accepted + if Accepts(w, f) then [Hearing(f.n, Delivers(m))] else [];
    if m.Overhear? then c.(session := Dispatch(c.session, Indication(w, f), m.now).0, accepted := accepted)
    else
      var taken := TakeRequest(c.session, Indication(w, f), m.now, m.ackSent, m.opens);
      c.(session := taken.session, accepted := accepted,
         delivered := c.delivered + if taken.delivered then [Delivery(f.n, f.packet)] else [])
  }

  function Issued(c: ClientEnd, packet: Packet, deadline: nat): ClientEnd {
    c.(session := Send(c.session, c.session.channel, packet, deadline).0, issued := c.issued + [packet],
       wire := c.wire + {Frame(|c.issued|, c.session.out.next, packet)})
  }

  // ---------------------------------------------------------------- the server's side

  predicate Held(w: World) {
    w.server.slot.active && w.client.session.channel == w.channel
  }

  predicate IsNew(w: World, f: Frame) {
    Classify(w.server.slot, Held(w), f.sequence).1 == New
  }

  function Serve(w: World, f: Frame, now: nat, ackSent: bool, handed: bool): ServerEnd {
    var s := w.server;
    var served := AcceptTunnelled(s.slot, Held(w), f.sequence, ackSent, now);
    s.(slot := served.slot, fates := s.fates + FateOf(w, Take(f, now, ackSent, handed)),
       delivered := s.delivered + if served.event == Ok(true) && handed then [Delivery(f.n, f.packet)] else [],
       acks := s.acks + if served.acked then {Ack(f.n, f.sequence)} else {})
  }

  /** What becomes of a request the move makes the server accept: delivered or dropped. */
  function FateOf(w: World, m: Move): seq<bool> {
    if m.Take? && IsNew(w, m.frame) then [m.ackSent && m.handed] else []
  }

  function Pushed(s: ServerEnd, packet: Packet, away: bool): ServerEnd {
    var (slot, sequence) := Claim(s.slot);
    s.(slot := slot, issued := s.issued + [packet],
       wire := s.wire + if away then {Frame(|s.issued|, sequence, packet)} else {})
  }

  // ---------------------------------------------------------------- runs

  function Moved(w: World, m: Move): World
    requires CanMove(w, m)
  {
    var c := w.client;
    match m
    case Issue(packet, deadline) => w.(client := Issued(c, packet, deadline))
    case Retransmit =>
      w.(client := c.(wire := c.wire + {Frame(|c.issued| - 1, c.session.out.expected, RetryPacket(c.session))}))
    case TakeAck(a) => w.(client := c.(session := OnAck(c.session, w.channel, a.sequence, 0).0))
    case Receive(_, _, _, _) => w.(client := Received(w, m))
    case Overhear(_, _) => w.(client := Received(w, m))
    case Housekeep(e) => w.(client := c.(session := Apply(c.session, e).0))
    case Push(packet, away) => w.(server := Pushed(w.server, packet, away))
    case Take(f, now, ackSent, handed) => w.(server := Serve(w, f, now, ackSent, handed))
    case Release => w.(server := w.server.(slot := CLOSED_SLOT))
  }

  predicate Legal(w: World, run: seq<Move>)
    decreases |run|
  {
    run == [] || (CanMove(w, run[0]) && Legal(Moved(w, run[0]), run[1..]))
  }

  function Final(w: World, run: seq<Move>): World
    requires Legal(w, run)
    decreases |run|
  {
    if run == [] then w else Final(Moved(w, run[0]), run[1..])
  }

  lemma {:induction false} RunSplits(w: World, before: seq<Move>, after: seq<Move>)
    requires Legal(w, before + after)
    ensures Legal(w, before) && Legal(Final(w, before), after)
    ensures Final(w, before + after) == Final(Final(w, before), after)
    decreases |before|
  {
    if before == [] {
      assert before + after == after;
    } else {
      assert (before + after)[1..] == before[1..] + after;
      RunSplits(Moved(w, before[0]), before[1..], after);
    }
  }

  /** From the client to the server, or back. */
  datatype Direction = Up | Down

  /** No datagram of this direction is older than eight bits can tell. */
  predicate TimelyMove(d: Direction, w: World, m: Move) {
    match m
    case Take(f, _, _, _) => d == Up ==> |w.client.issued| - f.n <= 255
    case TakeAck(a) => d == Up ==> |w.client.issued| - a.n <= 256
    case Receive(f, _, _, _) => d == Down ==> |w.server.issued| - f.n <= 255
    case Overhear(f, _) => d == Down ==> |w.server.issued| - f.n <= 255
    case _ => true
  }

  predicate Timely(d: Direction, w: World, run: seq<Move>)
    requires Legal(w, run)
    decreases |run|
  {
    run == [] || (TimelyMove(d, w, run[0]) && Timely(d, Moved(w, run[0]), run[1..]))
  }

  lemma {:induction false} TimelySplits(d: Direction, w: World, before: seq<Move>, after: seq<Move>)
    requires Legal(w, before + after) && Timely(d, w, before + after)
    requires Legal(w, before) && Legal(Final(w, before), after)
    ensures Timely(d, w, before) && Timely(d, Final(w, before), after)
    decreases |before|
  {
    if before == [] {
      assert before + after == after;
    } else {
      assert (before + after)[1..] == before[1..] + after;
      TimelySplits(d, Moved(w, before[0]), before[1..], after);
    }
  }

  lemma {:induction false} Append(d: Direction, w: World, run: seq<Move>, m: Move)
    requires Legal(w, run) && Timely(d, w, run) && CanMove(Final(w, run), m) && TimelyMove(d, Final(w, run), m)
    ensures Legal(w, run + [m]) && Timely(d, w, run + [m]) && Final(w, run + [m]) == Moved(Final(w, run), m)
    decreases |run|
  {
    if run == [] {
      assert (run + [m])[1..] == [];
    } else {
      Append(d, Moved(w, run[0]), run[1..], m);
      assert (run + [m])[1..] == run[1..] + [m];
    }
  }

  // ---------------------------------------------------------------- the tunnel

  /** The session has been connected on this channel, and stays what it is. */
  predicate Tunnel(w: World) {
    var s := w.client.session;
    Inv(s) && !s.stream && s.channel == w.channel && s.state != Idle && s.state != Connecting
  }

  /** A tunnel just formed. */
  predicate Linked(w: World) {
    && Tunnel(w) && w.client.session.state == Connected && w.client.session.out.next == 0 && !w.client.session.inc.valid
    && w.client == ClientEnd(w.client.session, [], {}, [], [])
    && w.server == ServerEnd(OpenSlot(w.server.slot.holder, w.server.slot.lastActivity), [], {}, [], [], {})
  }

  /** Connecting forms one: the server offers a channel, and its answer reaches a fresh client that asked. */
  lemma ConnectingLinks(config: Config, packet: Packet, deadline: nat, channel: Byte, holder: nat, now: nat)
    requires config.Valid() && HEADER_SIZE <= |packet| <= MAX_DATAGRAM && channel != 0
    ensures var asked := JoinTunnel(Fresh(config, false), packet, deadline, [Arrived(EConnectResponse(channel, true), now)]);
            && asked.result == Some(Done)
            && Linked(World(channel, ClientEnd(asked.session, [], {}, [], []),
                            ServerEnd(OpenSlot(holder, now), [], {}, [], [], {})))
  {
    var started := StartConnect(Fresh(config, false), packet, deadline).0;
    CalledInv(Fresh(config, false), EStartConnect(packet, deadline));
    DispatchInv(started, EConnectResponse(channel, true), now);
  }

  /** An indication touches the incoming numbering of a session that accepts it, and the time of activity. */
  lemma IndicationKeeps(w: World, f: Frame, now: nat)
    requires Inv(w.client.session)
    ensures var s, t := w.client.session, Dispatch(w.client.session, Indication(w, f), now).0;
            && Inv(t) && t == s.(inc := t.inc, lastActivity := t.lastActivity)
            && t.inc == if Accepts(w, f) then Incoming(true, f.sequence, (f.sequence + 1) % 256) else s.inc
  {
    DispatchInv(w.client.session, Indication(w, f), now);
  }

  /** Housekeeping leaves the numbering alone, and drops an outstanding request only by closing. */
  lemma HousekeepingKeeps(s: Session, e: Event)
    requires Inv(s) && Housekeeping(e) && s.state != Idle && s.state != Connecting
    ensures var t := Apply(s, e).0;
            && t.inc == s.inc && t.channel == s.channel && t.stream == s.stream
            && t.out.next == s.out.next && t.out.expected == s.out.expected
            && (t.out.pending ==> s.out.pending && t.out.request == s.out.request)
            && (t.state != Closed ==> s.state != Closed && t.out.pending == s.out.pending)
            && t.state != Idle && t.state != Connecting
  {
  }

  lemma TunnelStep(w: World, m: Move)
    requires Tunnel(w) && CanMove(w, m)
    ensures Tunnel(Moved(w, m))
  {
    var s := w.client.session;
    match m
    case Issue(packet, deadline) => StepInv(s, ESend(s.channel, packet, deadline));
    case TakeAck(a) => StepInv(s, EAck(w.channel, a.sequence, 0));
    case Receive(f, now, _, _) => IndicationKeeps(w, f, now);
    case Overhear(f, now) => IndicationKeeps(w, f, now);
    case Housekeep(e) =>
      StepInv(s, e);
      HousekeepingKeeps(s, e);
    case _ =>
  }

  // ---------------------------------------------------------------- eight-bit numbers

  lemma SameResidue(i: int, j: int)
    requires i % 256 == j % 256 && -256 < i - j < 256
    ensures i == j
  {
  }

  lemma OtherResidue(i: int, j: int)
    requires i != j && -256 < i - j < 256
    ensures i % 256 != j % 256
  {
  }

  lemma NextResidue(m: int)
    ensures ((m - 1) % 256 + 1) % 256 == m % 256
  {
  }

  lemma ResidueBack(m: int)
    ensures (m - 256) % 256 == m % 256
  {
  }
}
