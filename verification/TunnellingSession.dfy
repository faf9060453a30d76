/**
The tunnelling session state machine: which event is legal in which state, which channel and sequence
number an answer has to carry, and when a retry becomes a give-up.

Each event of the session is a function from the session before to the session after and an outcome.
The counters have the widths of the source: sequence numbers wrap at 256, connect and disconnect retry
counts at 65536, deadlines at 2^32.
*/
module TunnellingSession {

  type Packet = seq<bv8>

  type Byte = n: nat | n < 256

  datatype Lifecycle = Idle | Connecting | Connected | WaitingAck | Closing | Closed

  datatype Error =
    | InvalidConfiguration | InvalidLength | SendQueueFull | ShutDown | SequenceError | MalformedFrame
    | ConnectionFailed | HeartbeatFailed | TimedOut | Inactive | UnsupportedService

  datatype Outcome = Done | Failed(error: Error)

  const WORD: nat := 0x1_0000_0000
  const HEADER_SIZE: nat := 6
  const MAX_DATAGRAM: nat := 1472

  /** Retry budget (16 bits), failure limit (8 bits) and timeouts (32 bits). */
  datatype Config = Config(maxRetries: nat, ackTimeout: nat, connectTimeout: nat,
                           heartbeatLimit: nat, inactivityTimeout: nat)
  {
    predicate Valid() {
      && maxRetries < 0x1_0000 && heartbeatLimit < 0x100
      && ackTimeout < WORD && connectTimeout < WORD && inactivityTimeout < WORD
    }
  }

  /** The request this side has outstanding, and its numbering. */
  datatype Outgoing = Outgoing(pending: bool, retries: nat, expected: Byte, next: Byte, request: Packet)

  /** How far the peer's numbering has been followed. */
  datatype Incoming = Incoming(valid: bool, last: Byte, next: Byte)

  datatype Heartbeat = Heartbeat(failures: nat, outstanding: bool, deadline: nat)

  datatype Attempts = Attempts(connect: nat, packet: Packet, disconnect: nat)

  datatype Session = Session(config: Config, stream: bool, state: Lifecycle, channel: Byte,
                             out: Outgoing, inc: Incoming, heart: Heartbeat, tries: Attempts,
                             deadline: nat, lastActivity: nat)

  function Fresh(config: Config, stream: bool): Session {
    Session(config, stream, Idle, 0, Outgoing(false, 0, 0, 0, []), Incoming(false, 0, 0),
            Heartbeat(0, false, 0), Attempts(0, [], 0), 0, 0)
  }

  // ---------------------------------------------------------------- the caller's events

  function Reset(s: Session): Session {
    Fresh(s.config, s.stream)
  }

  function Shutdown(s: Session): Session {
    s.(state := Closed, out := s.out.(pending := false, request := []),
       heart := s.heart.(outstanding := false), tries := s.tries.(packet := []))
  }

  /** Encodes a connect request and retains it, without leaving idle. `packet` is empty when the encoder failed. */
  function PrepareConnect(s: Session, packet: Packet): (Session, Outcome) {
    if s.state != Idle then (s, Failed(InvalidConfiguration))
    else if packet == [] then (s, Failed(InvalidLength))
    else (s.(tries := s.tries.(packet := packet)), Done)
  }

  function StartConnect(s: Session, packet: Packet, deadline: nat): (Session, Outcome) {
    if s.state != Idle then (s, Failed(InvalidConfiguration))
    else if |packet| < HEADER_SIZE || |packet| > MAX_DATAGRAM then (s, Failed(InvalidLength))
    else (s.(state := Connecting, tries := s.tries.(connect := 0, packet := packet), deadline := deadline), Done)
  }

  /** The request itself, once its octets have been encoded: the counter it was given, or why it was refused. */
  function Begin(s: Session, channel: nat, sequence: nat, deadline: nat): (Session, Outcome) {
    if s.out.pending then (s, Failed(SendQueueFull))
    else if s.state == Closing || s.state == Closed then (s, Failed(ShutDown))
    else if channel == 0 || channel > 0xFF || sequence > 0xFF then (s, Failed(SequenceError))
    else
      var numbered := s.(channel := channel, out := s.out.(expected := sequence, next := (sequence + 1) % 256));
      if s.stream then (numbered, Done)
      else (numbered.(state := WaitingAck, out := numbered.out.(pending := true), deadline := deadline), Done)
  }

  /** Encode, retain for a retry unless the transport is a stream, and begin under the next sequence number. */
  function Send(s: Session, channel: Byte, packet: Packet, deadline: nat): (Session, Outcome) {
    if s.out.pending then (s, Failed(SendQueueFull))
    else if s.state == Closing || s.state == Closed then (s, Failed(ShutDown))
    else if channel == 0 then (s, Failed(SequenceError))
    else
      var retained := if s.stream then s else s.(out := s.out.(request := packet));
      Begin(retained, channel, s.out.next, deadline)
  }

  /** What a retry sends: the retained octets, and only after a timeout. */
  function RetryPacket(s: Session): Packet {
    if !s.out.pending || s.out.retries == 0 then [] else s.out.request
  }

  /** Copies the retained request out for a retry, octet by octet, into a buffer that may be too small. */
  method PrepareRetry(s: Session, dest: array<bv8>) returns (r: Outcome)
    modifies dest
    ensures r == Done <==> RetryPacket(s) != [] && dest.Length >= |s.out.request|
    ensures r == Done ==> dest[..|s.out.request|] == RetryPacket(s)
    ensures forall j :: (if r == Done then |s.out.request| else 0) <= j < dest.Length ==> dest[j] == old(dest[j])
  {
    var request := s.out.request;
    if !s.out.pending || s.out.retries == 0 || request == [] {
      return Failed(InvalidConfiguration);
    }
    if dest.Length < |request| {
      return Failed(InvalidLength);
    }
    var i := 0;
    while i < |request|
      invariant 0 <= i <= |request| && dest[..i] == request[..i]
      invariant forall j :: i <= j < dest.Length ==> dest[j] == old(dest[j])
    {
      dest[i] := request[i];
      i := i + 1;
    }
    return Done;
  }

  function Disconnect(s: Session): (Session, Outcome) {
    if s.state == Closed then (s, Failed(ShutDown))
    else if s.state != Connected then (s, Failed(InvalidConfiguration))
    else (s.(state := Closing, tries := s.tries.(disconnect := 0)), Done)
  }

  function NoteActivity(s: Session, now: nat): Session {
    if s.state == Connected then s.(lastActivity := now) else s
  }

  /** A heartbeat sent while one is outstanding keeps the earlier deadline. */
  function NoteHeartbeat(s: Session, deadline: nat): Session {
    if s.heart.outstanding then s else s.(heart := s.heart.(outstanding := true, deadline := deadline))
  }

  // ---------------------------------------------------------------- what arrives

  function OnConnectResponse(s: Session, channel: Byte, accepted: bool): (Session, Outcome) {
    if s.state != Idle && s.state != Connecting then (s, Failed(InvalidConfiguration))
    else if !accepted then (Abandon(s), Failed(ConnectionFailed))
    else if channel == 0 then (Abandon(s), Failed(SequenceError))
    else (s.(state := Connected, channel := channel, out := s.out.(pending := false, retries := 0),
             inc := s.inc.(valid := false), heart := s.heart.(failures := 0),
             tries := Attempts(0, [], 0), lastActivity := 0), Done)
  }

  function Abandon(s: Session): Session {
    if s.state != Connecting then s else s.(state := Idle, tries := s.tries.(connect := 0, packet := []))
  }

  function OnAck(s: Session, channel: Byte, sequence: Byte, status: nat): (Session, Outcome) {
    if status != 0 then (s, Failed(ConnectionFailed))
    else if !s.out.pending || s.channel != channel || s.out.expected != sequence then (s, Failed(SequenceError))
    else (s.(state := Connected, out := s.out.(pending := false, request := [], retries := 0)), Done)
  }

  /** The sequence number repeats the last one accepted. */
  predicate Duplicate(s: Session, channel: Byte, sequence: Byte) {
    !s.stream && s.state == Connected && channel == s.channel && s.inc.valid && sequence == s.inc.last
  }

  predicate OutOfOrder(s: Session, sequence: Byte) {
    !s.stream && s.inc.valid && sequence != s.inc.next
  }

  function OnIndication(s: Session, channel: Byte, sequence: Byte, empty: bool): (Session, Outcome) {
    if s.state != Connected then (s, Failed(InvalidConfiguration))
    else if channel != s.channel then (s, Failed(SequenceError))
    else if empty then (s, Failed(MalformedFrame))
    else if Duplicate(s, channel, sequence) || OutOfOrder(s, sequence) then (s, Failed(SequenceError))
    else (s.(inc := Incoming(true, sequence, (sequence + 1) % 256)), Done)
  }

  function OnHeartbeatResponse(s: Session, channel: Byte, ok: bool): (Session, Outcome) {
    if s.state != Connected then (s, Failed(InvalidConfiguration))
    else if channel != s.channel then (s, Failed(SequenceError))
    else
      var answered := s.(heart := s.heart.(outstanding := false));
      if ok then (answered.(heart := answered.heart.(failures := 0)), Done) else MissedHeartbeat(answered)
  }

  /** One more failure, saturating at 255, and the session closes once the limit is reached. */
  function MissedHeartbeat(s: Session): (Session, Outcome) {
    var failures := if s.heart.failures < 0xFF then s.heart.failures + 1 else s.heart.failures;
    var missed := s.(heart := s.heart.(failures := failures));
    if s.config.heartbeatLimit == 0 || failures >= s.config.heartbeatLimit
    then (missed.(state := Closed), Failed(HeartbeatFailed))
    else (missed, Failed(ConnectionFailed))
  }

  /** A peer's heartbeat is answered and changes nothing. */
  function OnHeartbeatRequest(s: Session, channel: Byte): (Session, Outcome) {
    if s.state != Connected then (s, Failed(InvalidConfiguration))
    else if channel != s.channel then (s, Failed(SequenceError))
    else (s, Done)
  }

  function OnDisconnectRequest(s: Session, channel: Byte): (Session, Outcome) {
    if s.state != Connected && s.state != Closing then (s, Failed(InvalidConfiguration))
    else if channel != s.channel then (s, Failed(SequenceError))
    else (s.(state := Closing), Done)
  }

  function OnDisconnectResponse(s: Session, channel: Byte, ok: bool): (Session, Outcome) {
    if s.state == Closed then (s, Failed(ShutDown))
    else if s.state != Closing then (s, Failed(InvalidConfiguration))
    else if channel != s.channel then (s, Failed(SequenceError))
    else if !ok then (s, Failed(ConnectionFailed))
    else (Shutdown(s), Done)
  }

  // ---------------------------------------------------------------- deadlines that passed

  function OnTimeout(s: Session): (Session, Outcome) {
    if !s.out.pending then (s, Failed(InvalidConfiguration))
    else
      var retries := s.out.retries + 1;
      if retries > s.config.maxRetries
      then (s.(state := Closed, out := s.out.(pending := false, retries := retries, request := [])), Failed(TimedOut))
      else (s.(state := WaitingAck, out := s.out.(retries := retries),
               deadline := (s.deadline + s.config.ackTimeout) % WORD), Done)
  }

  function OnConnectTimeout(s: Session): (Session, Outcome) {
    if s.state != Connecting then (s, Failed(InvalidConfiguration))
    else
      var attempts := (s.tries.connect + 1) % 0x1_0000;
      var counted := s.(tries := s.tries.(connect := attempts));
      if s.stream || attempts > s.config.maxRetries
      then (counted.(state := Closed, tries := counted.tries.(packet := [])), Failed(TimedOut))
      else (counted.(deadline := (s.deadline + s.config.connectTimeout) % WORD), Done)
  }

  function OnDisconnectTimeout(s: Session): (Session, Outcome) {
    if s.state != Closing then (s, Failed(InvalidConfiguration))
    else
      var attempts := (s.tries.disconnect + 1) % 0x1_0000;
      var counted := s.(tries := s.tries.(disconnect := attempts));
      if s.stream || attempts > s.config.maxRetries then (counted.(state := Closed), Failed(TimedOut))
      else (counted, Done)
  }

  function OnHeartbeatTimeout(s: Session): (Session, Outcome) {
    if s.state != Connected then (s, Failed(InvalidConfiguration)) else MissedHeartbeat(s)
  }

  function CheckHeartbeat(s: Session, now: nat): (Session, Outcome) {
    if !s.heart.outstanding || SignedDifference(now, s.heart.deadline) < 0 then (s, Done)
    else OnHeartbeatTimeout(s.(heart := s.heart.(outstanding := false)))
  }

  function CheckInactivity(s: Session, now: nat): (Session, Outcome) {
    if !InactiveAt(s, now) then (s, Done)
    else (s.(state := Closed, out := s.out.(pending := false)), Failed(Inactive))
  }

  // ---------------------------------------------------------------- the 32-bit clock

  /** The 32-bit pattern `d` read as a signed number. */
  function Signed(d: nat): int {
    if d < 0x8000_0000 then d else d - WORD
  }

  /** `static_cast<int32_t>(a - b)` for two 32-bit times. */
  function SignedDifference(a: nat, b: nat): int {
    Signed((a - b) % WORD)
  }

  predicate ExpiredAt(s: Session, now: nat) {
    s.out.pending && SignedDifference(now, s.deadline) >= 0
  }

  predicate ConnectExpiredAt(s: Session, now: nat) {
    s.state == Connecting && SignedDifference(now, s.deadline) >= 0
  }

  predicate InactiveAt(s: Session, now: nat) {
    s.state == Connected && SignedDifference(now, s.lastActivity) >= Signed(s.config.inactivityTimeout % WORD)
  }

  /**
  A deadline on a clock that wraps every 2^32 ms. With true times `t` and `d`, the test on the wrapped
  times says "passed" when it has, exactly when the deadline is less than half a turn of the clock away
  (whole turns do not show).
  */
  lemma ExpiryAgreesExactlyWhen(t: nat, d: nat)
    ensures (SignedDifference(t % WORD, d % WORD) >= 0 <==> t >= d) <==>
            if t >= d then (t - d) % WORD < 0x8000_0000 else (d - t - 1) % WORD < 0x8000_0000
  {
    WrappedDifference(t, d);
    if t < d {
      MirroredWrap(d - t - 1);
    }
  }

  lemma WrappedDifference(a: int, b: int)
    ensures (a % WORD - b % WORD) % WORD == (a - b) % WORD
  {
  }

  lemma MirroredWrap(x: int)
    ensures (-x - 1) % WORD == WORD - 1 - x % WORD
  {
  }

  /** Within half a turn of its deadline, a request or a connect has expired exactly when the deadline has passed. */
  lemma ExpiryIsComparison(s: Session, t: nat, d: nat)
    requires s.deadline == d % WORD && t - d < 0x8000_0000 && d - t <= 0x8000_0000
    ensures ExpiredAt(s, t % WORD) <==> s.out.pending && t >= d
    ensures ConnectExpiredAt(s, t % WORD) <==> s.state == Connecting && t >= d
  {
    ExpiryAgreesExactlyWhen(t, d);
  }

  /**
  The inactivity test compares against the timeout read as a signed number too. For silences below half a
  turn it is the comparison of the silence with the timeout exactly when the timeout is below half a turn;
  from there on a session looks silent at once.
  */
  lemma InactivityAgreesExactlyWhen(last: nat, silence: nat, timeout: nat)
    requires silence < 0x8000_0000 && timeout < WORD
    ensures (SignedDifference((last + silence) % WORD, last % WORD) >= Signed(timeout) <==> silence >= timeout)
            <==> timeout < 0x8000_0000
  {
  }

  // ---------------------------------------------------------------- runs

  datatype Event =
    | EReset
    | EShutdown
    | EUseStream(stream: bool)
    | EPrepareConnect(packet: Packet)
    | EStartConnect(packet: Packet, deadline: nat)
    | EBegin(channel16: nat, sequence16: nat, deadline: nat)
    | ESend(channel: Byte, packet: Packet, deadline: nat)
    | EDisconnect
    | ENoteActivity(now: nat)
    | ENoteHeartbeat(deadline: nat)
    | EConnectResponse(channel: Byte, ok: bool)
    | EAck(channel: Byte, sequence: Byte, status: nat)
    | EIndication(channel: Byte, sequence: Byte, empty: bool)
    | EHeartbeatResponse(channel: Byte, ok: bool)
    | EHeartbeatRequest(channel: Byte)
    | EDisconnectRequest(channel: Byte)
    | EDisconnectResponse(channel: Byte, ok: bool)
    | ETimeout
    | EConnectTimeout
    | EDisconnectTimeout
    | EHeartbeatTimeout
    | ECheckHeartbeat(now: nat)
    | ECheckInactivity(now: nat)

  function Apply(s: Session, e: Event): (Session, Outcome) {
    match e
    case EReset => (Reset(s), Done)
    case EShutdown => (Shutdown(s), Done)
    case EUseStream(stream) => (s.(stream := stream), Done)
    case EPrepareConnect(packet) => PrepareConnect(s, packet)
    case EStartConnect(packet, deadline) => StartConnect(s, packet, deadline)
    case EBegin(channel, sequence, deadline) => Begin(s, channel, sequence, deadline)
    case ESend(channel, packet, deadline) => Send(s, channel, packet, deadline)
    case EDisconnect => Disconnect(s)
    case ENoteActivity(now) => (NoteActivity(s, now), Done)
    case ENoteHeartbeat(deadline) => (NoteHeartbeat(s, deadline), Done)
    case EConnectResponse(channel, ok) => OnConnectResponse(s, channel, ok)
    case EAck(channel, sequence, status) => OnAck(s, channel, sequence, status)
    case EIndication(channel, sequence, empty) => OnIndication(s, channel, sequence, empty)
    case EHeartbeatResponse(channel, ok) => OnHeartbeatResponse(s, channel, ok)
    case EHeartbeatRequest(channel) => OnHeartbeatRequest(s, channel)
    case EDisconnectRequest(channel) => OnDisconnectRequest(s, channel)
    case EDisconnectResponse(channel, ok) => OnDisconnectResponse(s, channel, ok)
    case ETimeout => OnTimeout(s)
    case EConnectTimeout => OnConnectTimeout(s)
    case EDisconnectTimeout => OnDisconnectTimeout(s)
    case EHeartbeatTimeout => OnHeartbeatTimeout(s)
    case ECheckHeartbeat(now) => CheckHeartbeat(s, now)
    case ECheckInactivity(now) => CheckInactivity(s, now)
  }

  function Run(s: Session, events: seq<Event>): Session
    decreases |events|
  {
    if events == [] then s else Run(Apply(s, events[0]).0, events[1..])
  }

  /** What holds of every session, whatever was called on it and in whatever order. */
  predicate Inv(s: Session) {
    && s.config.Valid()
    // a request is outstanding exactly while its acknowledgement is awaited, and only then retained
    && (s.out.pending <==> s.state == WaitingAck)
    && (s.out.request != [] ==> s.out.pending)
    // it has been re-sent no more often than the budget allows, and every request starts from zero
    && (s.out.pending ==> s.out.retries <= s.config.maxRetries)
    && (s.state != WaitingAck && s.state != Closed ==> s.out.retries == 0)
    && (s.state == Connecting ==> s.tries.connect <= s.config.maxRetries)
    // an open channel has a number
    && (s.state == Connected || s.state == WaitingAck || s.state == Closing ==> s.channel != 0)
    // the numbering of the peer is followed one by one
    && (s.inc.valid ==> s.inc.next == (s.inc.last + 1) % 256)
    // a session that is not closed is still under the heartbeat limit
    && (s.state != Closed ==> s.heart.failures == 0 || s.heart.failures < s.config.heartbeatLimit)
  }

  /** The missed heartbeats in a row, with no answer between them. */
  function MissedHeartbeats(s: Session, n: nat): Session {
    if n == 0 then s else OnHeartbeatTimeout(MissedHeartbeats(s, n - 1)).0
  }

  lemma {:induction false} MissedBelowLimit(s: Session, n: nat)
    requires s.config.Valid() && s.state == Connected && s.heart.failures == 0
    requires n == 0 || n < s.config.heartbeatLimit
    ensures MissedHeartbeats(s, n) == s.(heart := s.heart.(failures := n))
  {
    if n > 0 {
      MissedBelowLimit(s, n - 1);
    }
  }

  /** A silent peer is declared lost by the heartbeat that reaches the limit, a limit of zero counting as one. */
  lemma HeartbeatsCloseAtLimit(s: Session, n: nat)
    requires s.config.Valid() && s.state == Connected && s.heart.failures == 0
    requires n == 0 || n < s.config.heartbeatLimit
    ensures MissedHeartbeats(s, n).state == Connected
    ensures var limit := if s.config.heartbeatLimit == 0 then 1 else s.config.heartbeatLimit;
            MissedHeartbeats(s, limit).state == Closed
  {
    MissedBelowLimit(s, n);
    if s.config.heartbeatLimit > 0 {
      MissedBelowLimit(s, s.config.heartbeatLimit - 1);
    } else {
      MissedBelowLimit(s, 0);
    }
  }

  /** The caller's own events. */
  predicate Called(e: Event) {
    || e.EReset? || e.EShutdown? || e.EUseStream? || e.EPrepareConnect? || e.EStartConnect? || e.EBegin? || e.ESend?
    || e.EDisconnect? || e.ENoteActivity? || e.ENoteHeartbeat?
  }

  /** The events a datagram of the peer brings. */
  predicate Datagram(e: Event) {
    || e.EConnectResponse? || e.EAck? || e.EIndication? || e.EHeartbeatResponse? || e.EHeartbeatRequest?
    || e.EDisconnectRequest? || e.EDisconnectResponse?
  }

  lemma CalledInv(s: Session, e: Event)
    requires Inv(s) && Called(e)
    ensures Inv(Apply(s, e).0)
  {
  }

  lemma DatagramInv(s: Session, e: Event)
    requires Inv(s) && Datagram(e)
    ensures Inv(Apply(s, e).0) && Apply(s, e).0.stream == s.stream
  {
  }

  lemma DeadlineInv(s: Session, e: Event)
    requires Inv(s) && !Called(e) && !Datagram(e)
    ensures Inv(Apply(s, e).0) && Apply(s, e).0.stream == s.stream
  {
  }

  lemma StepInv(s: Session, e: Event)
    requires Inv(s)
    ensures Inv(Apply(s, e).0)
  {
    if Called(e) {
      CalledInv(s, e);
    } else if Datagram(e) {
      DatagramInv(s, e);
    } else {
      DeadlineInv(s, e);
    }
  }

  lemma {:induction false} RunInv(s: Session, events: seq<Event>)
    requires Inv(s)
    ensures Inv(Run(s, events))
    decreases |events|
  {
    if events != [] {
      StepInv(s, events[0]);
      RunInv(Apply(s, events[0]).0, events[1..]);
    }
  }

  /** No event but a reset takes a session out of `Closed`, in any run of any session. */
  lemma {:induction false} ClosedIsTerminal(config: Config, before: seq<Event>, after: seq<Event>)
    requires config.Valid()
    requires Run(Fresh(config, false), before).state == Closed
    requires EReset !in after
    ensures Run(Run(Fresh(config, false), before), after).state == Closed
  {
    RunInv(Fresh(config, false), before);
    StaysClosed(Run(Fresh(config, false), before), after);
  }

  lemma {:induction false} StaysClosed(s: Session, events: seq<Event>)
    requires Inv(s) && s.state == Closed && EReset !in events
    ensures Run(s, events).state == Closed
    decreases |events|
  {
    if events != [] {
      assert events[0] != EReset;
      StepInv(s, events[0]);
      ClosedStep(s, events[0]);
      StaysClosed(Apply(s, events[0]).0, events[1..]);
    }
  }

  lemma ClosedStep(s: Session, e: Event)
    requires Inv(s) && s.state == Closed && e != EReset
    ensures Apply(s, e).0.state == Closed
  {
  }

  // ---------------------------------------------------------------- what the request guard leaves open

  /** A request that was accepted over a datagram transport, numbered by the caller or by the session. */
  predicate RequestAccepted(s: Session, e: Event) {
    (e.EBegin? || e.ESend?) && Apply(s, e).1 == Done && !s.stream
  }

  predicate Open(s: Session) {
    s.state == Connected || s.state == WaitingAck || s.state == Closing
  }

  /**
  The lifecycle is documented to reach an open channel by way of an accepted connect. A request is refused
  only by a session that is closing, closed or already waiting, so it opens an unconnected one as well.
  */
  lemma OpensExactlyBy(s: Session, e: Event)
    requires Inv(s) && (s.state == Idle || s.state == Connecting)
    ensures Open(Apply(s, e).0) <==> (e.EConnectResponse? && e.ok && e.channel != 0) || RequestAccepted(s, e)
  {
  }

  /** The shortest such run: one request and its acknowledgement, and no connect at all. */
  lemma OpenedWithoutConnecting(config: Config)
    ensures Run(Fresh(config, false), [EBegin(1, 0, 0), EAck(1, 0, 0)]).state == Connected
  {
    var events := [EBegin(1, 0, 0), EAck(1, 0, 0)];
    assert events[1..] == [EAck(1, 0, 0)];
    assert [EAck(1, 0, 0)][1..] == [];
    var waiting := Apply(Fresh(config, false), events[0]).0;
    assert Run(waiting, [EAck(1, 0, 0)]) == Run(Apply(waiting, EAck(1, 0, 0)).0, []);
  }

  predicate ConnectPacketOnlyWhileConnecting(s: Session) {
    s.tries.packet != [] ==> s.state == Connecting
  }

  /** A connect packet prepared ahead of the attempt it is for. */
  predicate PreparedAhead(s: Session, e: Event) {
    e.EPrepareConnect? && s.state == Idle && e.packet != []
  }

  /**
  The retained connect packet is documented to be empty unless connecting. Two events break that, and only
  they: preparing a connect while idle, and a request accepted while a packet is retained.
  */
  lemma ConnectPacketKeptExactlyUnless(s: Session, e: Event)
    requires Inv(s) && ConnectPacketOnlyWhileConnecting(s)
    ensures ConnectPacketOnlyWhileConnecting(Apply(s, e).0) <==>
            !PreparedAhead(s, e) && !(s.tries.packet != [] && RequestAccepted(s, e))
  {
  }

  predicate OnlyWhileConnectingThroughout(s: Session, events: seq<Event>)
    decreases |events|
  {
    ConnectPacketOnlyWhileConnecting(s) &&
    (events == [] || OnlyWhileConnectingThroughout(Apply(s, events[0]).0, events[1..]))
  }

  /** So over every run: the documentation holds throughout exactly when neither ever happens. */
  lemma {:induction false} ConnectPacketOverRuns(s: Session, events: seq<Event>)
    requires Inv(s) && ConnectPacketOnlyWhileConnecting(s)
    ensures OnlyWhileConnectingThroughout(s, events) <==> NeverKeptOver(s, events)
    decreases |events|
  {
    if events != [] {
      StepInv(s, events[0]);
      ConnectPacketKeptExactlyUnless(s, events[0]);
      if ConnectPacketOnlyWhileConnecting(Apply(s, events[0]).0) {
        ConnectPacketOverRuns(Apply(s, events[0]).0, events[1..]);
      }
    }
  }

  predicate NeverKeptOver(s: Session, events: seq<Event>)
    decreases |events|
  {
    events == [] ||
    (&& !PreparedAhead(s, events[0]) && !(s.tries.packet != [] && RequestAccepted(s, events[0]))
     && NeverKeptOver(Apply(s, events[0]).0, events[1..]))
  }

  // ---------------------------------------------------------------- retry budgets

  function Timeouts(s: Session, n: nat): Session {
    if n == 0 then s else OnTimeout(Timeouts(s, n - 1)).0
  }

  /** Moving a deadline by one timeout more, on the wrapping clock. */
  lemma DeadlineMoves(deadline: nat, timeout: nat, n: nat)
    requires n > 0
    ensures ((deadline + (n - 1) * timeout) % WORD + timeout) % WORD == (deadline + n * timeout) % WORD
  {
    assert n * timeout == (n - 1) * timeout + timeout;
    WrapThenAdd(deadline + (n - 1) * timeout, timeout);
  }

  lemma WrapThenAdd(x: nat, y: nat)
    ensures (x % WORD + y) % WORD == (x + y) % WORD
  {
  }

  /** Every re-send within the budget is of the same octets under the same number, its deadline one timeout later. */
  lemma {:induction false} RetriesWithinBudget(s: Session, n: nat)
    requires Inv(s) && s.out.pending && s.out.retries == 0 && n <= s.config.maxRetries && s.deadline < WORD
    ensures Timeouts(s, n) ==
            s.(out := s.out.(retries := n), deadline := (s.deadline + n * s.config.ackTimeout) % WORD)
    ensures n > 0 && s.out.request != [] ==> RetryPacket(Timeouts(s, n)) == s.out.request
  {
    if n > 0 {
      RetriesWithinBudget(s, n - 1);
      OneRetry(s, n, (s.deadline + (n - 1) * s.config.ackTimeout) % WORD);
      DeadlineMoves(s.deadline, s.config.ackTimeout, n);
    }
  }

  lemma OneRetry(s: Session, n: nat, deadline: nat)
    requires Inv(s) && s.out.pending && 0 < n <= s.config.maxRetries
    ensures OnTimeout(s.(out := s.out.(retries := n - 1), deadline := deadline)).0 ==
            s.(out := s.out.(retries := n), deadline := (deadline + s.config.ackTimeout) % WORD)
  {
  }

  /** The request is given up by the timeout after the last retry, and by no earlier one. */
  lemma RequestGivesUpAfterBudget(s: Session, n: nat)
    requires Inv(s) && s.out.pending && s.out.retries == 0 && n <= s.config.maxRetries && s.deadline < WORD
    ensures Timeouts(s, n).out.pending
    ensures Timeouts(s, s.config.maxRetries + 1).state == Closed
    ensures OnTimeout(Timeouts(s, s.config.maxRetries)).1 == Failed(TimedOut)
  {
    RetriesWithinBudget(s, n);
    RetriesWithinBudget(s, s.config.maxRetries);
  }

  lemma CountWraps(n: nat)
    requires n > 0
    ensures ((n - 1) % 0x1_0000 + 1) % 0x1_0000 == n % 0x1_0000
    ensures n % 0x1_0000 <= 0xFFFF && (n <= 0xFFFF ==> n % 0x1_0000 == n)
  {
  }

  function ConnectTimeouts(s: Session, n: nat): Session {
    if n == 0 then s else OnConnectTimeout(ConnectTimeouts(s, n - 1)).0
  }

  lemma {:induction false} ConnectAttempts(s: Session, n: nat)
    requires s.config.Valid() && s.state == Connecting && s.tries.connect == 0 && !s.stream
    requires n <= s.config.maxRetries || s.config.maxRetries == 0xFFFF
    ensures ConnectTimeouts(s, n).state == Connecting && ConnectTimeouts(s, n).tries.connect == n % 0x1_0000
    ensures ConnectTimeouts(s, n).config == s.config && !ConnectTimeouts(s, n).stream
  {
    if n > 0 {
      ConnectAttempts(s, n - 1);
      CountWraps(n);
    }
  }

  /**
  A connect that is never answered is given up after the budget plus one timeouts, provided the budget is
  below the largest one: the 16-bit counter wraps before it can exceed 65535, and then nothing gives up.
  */
  lemma ConnectGivesUpExactlyWhen(s: Session)
    requires s.config.Valid() && s.state == Connecting && s.tries.connect == 0 && !s.stream
    ensures (exists n :: ConnectTimeouts(s, n).state == Closed) <==> s.config.maxRetries < 0xFFFF
    ensures s.config.maxRetries < 0xFFFF ==> ConnectTimeouts(s, s.config.maxRetries + 1).state == Closed
    ensures forall n: nat :: n <= s.config.maxRetries ==> ConnectTimeouts(s, n).state == Connecting
  {
    var budget := s.config.maxRetries;
    forall n: nat | n <= budget || budget == 0xFFFF
      ensures ConnectTimeouts(s, n).state == Connecting
    {
      ConnectAttempts(s, n);
    }
    ConnectAttempts(s, budget);
    if budget < 0xFFFF {
      assert ConnectTimeouts(s, budget + 1).state == Closed;
    }
  }

  function DisconnectTimeouts(s: Session, n: nat): Session {
    if n == 0 then s else OnDisconnectTimeout(DisconnectTimeouts(s, n - 1)).0
  }

  lemma {:induction false} DisconnectAttempts(s: Session, n: nat)
    requires s.config.Valid() && s.state == Closing && s.tries.disconnect == 0 && !s.stream
    requires n <= s.config.maxRetries || s.config.maxRetries == 0xFFFF
    ensures DisconnectTimeouts(s, n).state == Closing && DisconnectTimeouts(s, n).tries.disconnect == n % 0x1_0000
    ensures DisconnectTimeouts(s, n).config == s.config && !DisconnectTimeouts(s, n).stream
  {
    if n > 0 {
      DisconnectAttempts(s, n - 1);
      CountWraps(n);
    }
  }

  /** The same holds of a disconnect. */
  lemma DisconnectGivesUpExactlyWhen(s: Session)
    requires s.config.Valid() && s.state == Closing && s.tries.disconnect == 0 && !s.stream
    ensures (exists n :: DisconnectTimeouts(s, n).state == Closed) <==> s.config.maxRetries < 0xFFFF
    ensures s.config.maxRetries < 0xFFFF ==> DisconnectTimeouts(s, s.config.maxRetries + 1).state == Closed
    ensures forall n: nat :: n <= s.config.maxRetries ==> DisconnectTimeouts(s, n).state == Closing
  {
    var budget := s.config.maxRetries;
    forall n: nat | n <= budget || budget == 0xFFFF
      ensures DisconnectTimeouts(s, n).state == Closing
    {
      DisconnectAttempts(s, n);
    }
    DisconnectAttempts(s, budget);
    if budget < 0xFFFF {
      assert DisconnectTimeouts(s, budget + 1).state == Closed;
    }
  }
}
