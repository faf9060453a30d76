/**
The exchanges of the tunnelling client over a datagram transport: each transmits a packet, waits for an
answer, applies whatever arrives to the session, and goes on or ends.

The network is a parameter: the replies an exchange gets, one after the other.
*/
module TunnellingExchanges {

  import opened Results
  import opened TunnellingSession

  /** An error that is neither a passed deadline nor a sequence error, which the loops treat apart. */
  type Fault = e: Error | e != TimedOut && e != SequenceError witness ConnectionFailed

  /** What one wait for an answer brings. */
  datatype Reply =
    | Silence                            // the deadline passed
    | Broken(fault: Fault)               // a failed transport, a stray peer or octets that do not decode
    | Arrived(event: Event, now: nat)    // a datagram of the session, decoded

  /** `dispatch_session_datagram`: an accepted datagram counts as activity. */
  function Dispatch(s: Session, e: Event, now: nat): (Session, Outcome) {
    var (t, r) := Apply(s, e);
    if r == Done then (NoteActivity(t, now), Done) else (t, r)
  }

  predicate Datagrams(replies: seq<Reply>) {
    forall i :: 0 <= i < |replies| && replies[i].Arrived? ==> Datagram(replies[i].event)
  }

  /** An operation as far as its replies take it: the session, the result once there is one, the transmissions. */
  datatype Progress = Progress(session: Session, result: Option<Outcome>, sent: nat)

  // ---------------------------------------------------------------- the exchanges

  /** The four exchanges that transmit a packet and wait. */
  datatype Kind = Request | Beat | Join | Leave

  /** What one wait does to the session. A leaving client reads past all but the answer to its disconnect. */
  function Hear(kind: Kind, s: Session, reply: Reply): (Session, Outcome) {
    match reply
    case Broken(fault) => (s, Failed(fault))
    case Silence => Apply(s, SilenceEvent(kind))
    case Arrived(e, now) =>
      if kind != Leave then Dispatch(s, e, now)
      else if e.EDisconnectResponse? then Apply(s, e)
      else (s, Done)
  }

  /** Whether the exchange goes on: after a silence the session bears, or after what does not concern it. */
  predicate GoesOn(kind: Kind, reply: Reply, outcome: Outcome) {
    match reply
    case Broken(_) => false
    case Silence => outcome == if kind == Beat then Failed(ConnectionFailed) else Done
    case Arrived(e, _) =>
      match kind
      case Request => outcome == Failed(SequenceError)
      case Beat => outcome == Failed(SequenceError)
      case Join => false
      case Leave => !e.EDisconnectResponse?
  }

  /** Going on means transmitting again, except for what a leaving client reads past. */
  function Retransmissions(kind: Kind, reply: Reply): nat {
    if kind == Leave && reply.Arrived? then 0 else 1
  }

  function Exchange(kind: Kind, s: Session, replies: seq<Reply>): (p: Progress)
    ensures p.sent >= 1
    decreases |replies|
  {
    if replies == [] then Progress(s, None, 1)
    else
      var (t, r) := Hear(kind, s, replies[0]);
      if GoesOn(kind, replies[0], r) then Later(Exchange(kind, t, replies[1..]), Retransmissions(kind, replies[0]))
      else Progress(t, Some(r), 1)
  }

  lemma ExchangeFrom(kind: Kind, s: Session, replies: seq<Reply>, i: nat)
    requires i < |replies|
    ensures var (t, r) := Hear(kind, s, replies[i]);
            Exchange(kind, s, replies[i..]) ==
            if GoesOn(kind, replies[i], r)
            then Later(Exchange(kind, t, replies[i + 1..]), Retransmissions(kind, replies[i]))
            else Progress(t, Some(r), 1)
  {
    assert replies[i..][1..] == replies[i + 1..];
  }

  function Later(p: Progress, n: nat): Progress {
    p.(sent := p.sent + n)
  }

  lemma DispatchInv(s: Session, e: Event, now: nat)
    requires Inv(s) && Datagram(e)
    ensures Inv(Dispatch(s, e, now).0) && Dispatch(s, e, now).0.stream == s.stream
  {
    DatagramInv(s, e);
    CalledInv(Apply(s, e).0, ENoteActivity(now));
  }

  function SilenceEvent(kind: Kind): Event {
    match kind
    case Request => ETimeout
    case Beat => EHeartbeatTimeout
    case Join => EConnectTimeout
    case Leave => EDisconnectTimeout
  }

  lemma HearInv(kind: Kind, s: Session, reply: Reply)
    requires Inv(s) && (reply.Arrived? ==> Datagram(reply.event))
    ensures Inv(Hear(kind, s, reply).0) && Hear(kind, s, reply).0.stream == s.stream
  {
    match reply
    case Broken(_) =>
    case Silence => DeadlineInv(s, SilenceEvent(kind));
    case Arrived(e, now) =>
      DispatchInv(s, e, now);
      DatagramInv(s, e);
  }

  lemma {:induction false} ExchangeInv(kind: Kind, s: Session, replies: seq<Reply>)
    requires Inv(s) && Datagrams(replies)
    ensures Inv(Exchange(kind, s, replies).session) && Exchange(kind, s, replies).session.stream == s.stream
    decreases |replies|
  {
    if replies != [] {
      HearInv(kind, s, replies[0]);
      ExchangeInv(kind, Hear(kind, s, replies[0]).0, replies[1..]);
    }
  }

  // ---------------------------------------------------------------- sending a request

  function SendRequest(s: Session, packet: Packet, deadline: nat, replies: seq<Reply>): Progress {
    var (t, r) := Send(s, s.channel, packet, deadline);
    if r != Done then Progress(t, Some(r), 0) else Exchange(Request, t, replies)
  }

  /** How a request ends, told from the replies alone. */
  datatype Verdict = Waiting | Acknowledged | GivenUp | Abandoned(error: Error)

  /** The acknowledgement of another request, or on another channel. */
  predicate StaleAck(r: Reply, channel: Byte, sequence: Byte) {
    r.Arrived? && r.event.EAck? && r.event.status == 0 && !(r.event.channel == channel && r.event.sequence == sequence)
  }

  /**
  Stale acknowledgements are passed over and silences counted against the budget. The acknowledgement
  awaited ends the request; anything else that arrives, whatever it is, abandons it.
  */
  function Judge(replies: seq<Reply>, budget: nat, channel: Byte, sequence: Byte): Verdict
    decreases |replies|
  {
    if replies == [] then Waiting
    else if replies[0].Silence? then
      if budget == 0 then GivenUp else Judge(replies[1..], budget - 1, channel, sequence)
    else if StaleAck(replies[0], channel, sequence) then Judge(replies[1..], budget, channel, sequence)
    else if replies[0].Broken? then Abandoned(replies[0].fault)
    else if replies[0].event.EAck? && replies[0].event.status == 0 then Acknowledged
    else Abandoned(if replies[0].event.EAck? then ConnectionFailed else InvalidConfiguration)
  }

  /** What a waiting session makes of one datagram. */
  lemma WaitingTakesOnlyItsAck(s: Session, e: Event)
    requires Inv(s) && s.state == WaitingAck && Datagram(e)
    ensures Apply(s, e).1 == Done <==>
            e.EAck? && e.status == 0 && e.channel == s.channel && e.sequence == s.out.expected
    ensures Apply(s, e).1 == Failed(SequenceError) <==>
            e.EAck? && e.status == 0 && !(e.channel == s.channel && e.sequence == s.out.expected)
    ensures Apply(s, e).1 != Done ==> Apply(s, e).0 == s
    ensures Apply(s, e).1 == Done ==> Apply(s, e).0.state == Connected
    ensures Apply(s, e).1 != Failed(TimedOut)
  {
  }

  /** What a waiting session makes of a silence. */
  lemma WaitingThroughSilence(s: Session)
    requires Inv(s) && s.out.pending
    ensures var (t, r) := OnTimeout(s);
            && Inv(t)
            && (r == Done <==> s.out.retries < s.config.maxRetries)
            && (r == Done ==> t.out.pending && t.channel == s.channel && t.out.expected == s.out.expected
                              && t.config == s.config && t.out.retries == s.out.retries + 1)
            && (r != Done ==> r == Failed(TimedOut) && t.state == Closed)
  {
    StepInv(s, ETimeout);
  }

  /** What the end of a request leaves behind. */
  predicate EndsAs(p: Progress, verdict: Verdict, replies: nat) {
    Inv(p.session) &&
    match verdict
    case Waiting => p.result == None && p.session.state == WaitingAck && p.sent == replies + 1
    case Acknowledged => p.result == Some(Done) && p.session.state == Connected
    case GivenUp => p.result == Some(Failed(TimedOut)) && p.session.state == Closed
    case Abandoned(error) => p.result == Some(Failed(error)) && p.session.state == WaitingAck
  }

  /**
  The request ends as the replies say: acknowledged and connected, given up and closed after exactly the
  budget, or abandoned with the request still outstanding in the session.
  */
  lemma {:induction false} AwaitFollowsVerdict(s: Session, replies: seq<Reply>)
    requires Inv(s) && s.out.pending && Datagrams(replies)
    ensures EndsAs(Exchange(Request, s, replies),
                   Judge(replies, s.config.maxRetries - s.out.retries, s.channel, s.out.expected), |replies|)
    decreases |replies|
  {
    if replies == [] {
    } else if replies[0].Silence? {
      WaitingThroughSilence(s);
      if OnTimeout(s).1 == Done {
        AwaitFollowsVerdict(OnTimeout(s).0, replies[1..]);
      }
    } else if replies[0].Arrived? {
      AwaitOne(s, replies);
      if StaleAck(replies[0], s.channel, s.out.expected) {
        AwaitFollowsVerdict(s, replies[1..]);
      }
    }
  }

  /** The step for a datagram: a stale acknowledgement changes nothing, anything else ends the wait. */
  lemma AwaitOne(s: Session, replies: seq<Reply>)
    requires Inv(s) && s.out.pending && Datagrams(replies) && replies != [] && replies[0].Arrived?
    ensures if StaleAck(replies[0], s.channel, s.out.expected)
            then Exchange(Request, s, replies) == Later(Exchange(Request, s, replies[1..]), 1)
            else EndsAs(Exchange(Request, s, replies), Judge(replies, 0, s.channel, s.out.expected), |replies|)
  {
    WaitingTakesOnlyItsAck(s, replies[0].event);
    StepInv(s, replies[0].event);
  }

  /** A request sent by a connected client: over once it has a result, unless it was abandoned. */
  lemma SendLeavesWaitingExactlyWhen(s: Session, packet: Packet, deadline: nat, replies: seq<Reply>)
    requires Inv(s) && s.state == Connected && !s.stream && packet != [] && Datagrams(replies)
    ensures var p := SendRequest(s, packet, deadline, replies);
            && EndsAs(p, Judge(replies, s.config.maxRetries, s.channel, s.out.next), |replies|)
            && (p.result.Some? ==>
                  (p.session.state == WaitingAck <==>
                     Judge(replies, s.config.maxRetries, s.channel, s.out.next).Abandoned?))
  {
    StepInv(s, ESend(s.channel, packet, deadline));
    AwaitFollowsVerdict(Send(s, s.channel, packet, deadline).0, replies);
  }

  // ---------------------------------------------------------------- the heartbeat

  function SendHeartbeat(s: Session, replies: seq<Reply>): Progress {
    if s.state != Connected then Progress(s, Some(Failed(ShutDown)), 0) else Exchange(Beat, s, replies)
  }

  /** What a connected session accepts from its peer. */
  predicate Acceptable(s: Session, e: Event) {
    || (e.EHeartbeatResponse? && e.channel == s.channel && e.ok)
    || (e.EHeartbeatRequest? && e.channel == s.channel)
    || (e.EDisconnectRequest? && e.channel == s.channel)
    || (e.EIndication? && e.channel == s.channel && !e.empty && (s.inc.valid ==> e.sequence == s.inc.next))
  }

  lemma AcceptsExactly(s: Session, e: Event)
    requires Inv(s) && s.state == Connected && !s.stream && Datagram(e)
    ensures Apply(s, e).1 == Done <==> Acceptable(s, e)
  {
    if s.inc.valid {
      assert s.inc.next != s.inc.last;
    }
  }

  /**
  The heartbeat is documented to wait for its answer. It is content with whatever its session accepts
  first: the peer's own heartbeat, its disconnect, and a tunnelled request, which is accepted and then
  neither acknowledged nor delivered.
  */
  lemma HeartbeatContentExactlyWith(s: Session, replies: seq<Reply>)
    requires Inv(s) && s.state == Connected && !s.stream
    requires replies != [] && replies[0].Arrived? && Datagram(replies[0].event)
    ensures var p, e, now := SendHeartbeat(s, replies), replies[0].event, replies[0].now;
            && (p.sent == 1 && p.result == Some(Done) <==> Acceptable(s, e))
            && (Acceptable(s, e) ==> p.session == NoteActivity(Apply(s, e).0, now))
  {
    AcceptsExactly(s, replies[0].event);
  }

  // ---------------------------------------------------------------- connecting and disconnecting

  function JoinTunnel(s: Session, packet: Packet, deadline: nat, replies: seq<Reply>): Progress {
    var (t, r) := StartConnect(s, packet, deadline);
    if r != Done then Progress(t, Some(r), 0) else Exchange(Join, t, replies)
  }

  function LeaveTunnel(s: Session, replies: seq<Reply>): Progress {
    var (t, r) := Disconnect(s);
    if r != Done then Progress(t, Some(r), 0) else Exchange(Leave, t, replies)
  }

  // ---------------------------------------------------------------- how the other exchanges end

  /** How a connect, a disconnect or a heartbeat ends, told from the replies alone. */
  datatype Ending =
    | Unanswered                 // it still waits
    | Answered
    | Spent                      // given up after the last silence it bears
    | Denied(error: Error)       // the peer's answer was no
    | Stopped(error: Error)      // by anything else

  /** One silence: nothing to an endless wait, otherwise one attempt less or the end. */
  function AfterSilence(endless: bool, left: nat): Option<nat> {
    if endless then Some(left) else if left == 0 then None else Some(left - 1)
  }

  /** The first datagram ends a connect, whatever it is. */
  function JoinEnding(replies: seq<Reply>, endless: bool, left: nat): Ending
    decreases |replies|
  {
    if replies == [] then Unanswered
    else
      match replies[0]
      case Silence =>
        var rest := AfterSilence(endless, left);
        if rest == None then Spent else JoinEnding(replies[1..], endless, rest.value)
      case Broken(fault) => Stopped(fault)
      case Arrived(e, _) =>
        if !e.EConnectResponse? then Stopped(JoinError(e))
        else if !e.ok then Denied(ConnectionFailed)
        else if e.channel == 0 then Denied(SequenceError)
        else Answered
  }

  /** What a connecting session makes of a datagram that is no answer to it. */
  function JoinError(e: Event): Error {
    if !e.EAck? then InvalidConfiguration else if e.status == 0 then SequenceError else ConnectionFailed
  }

  /** A disconnect reads past everything but its answer. */
  function LeaveEnding(replies: seq<Reply>, endless: bool, left: nat, channel: Byte): Ending
    decreases |replies|
  {
    if replies == [] then Unanswered
    else
      match replies[0]
      case Silence =>
        var rest := AfterSilence(endless, left);
        if rest == None then Spent else LeaveEnding(replies[1..], endless, rest.value, channel)
      case Broken(fault) => Stopped(fault)
      case Arrived(e, _) =>
        if !e.EDisconnectResponse? then LeaveEnding(replies[1..], endless, left, channel)
        else if e.channel != channel then Stopped(SequenceError)
        else if !e.ok then Denied(ConnectionFailed)
        else Answered
  }

  /**
  A heartbeat is answered by whatever its session accepts. It passes over what is for another channel, out
  of turn or stale, counts silences and refusals against the failures left, and stops at anything else.
  */
  function BeatEnding(replies: seq<Reply>, left: nat, channel: Byte, inc: Incoming): Ending
    decreases |replies|
  {
    if replies == [] then Unanswered
    else
      match replies[0]
      case Silence => if left <= 1 then Spent else BeatEnding(replies[1..], left - 1, channel, inc)
      case Broken(fault) => Stopped(fault)
      case Arrived(e, _) =>
        if PassedOver(e, channel, inc) then BeatEnding(replies[1..], left, channel, inc)
        else if e.EHeartbeatResponse? && !e.ok then if left <= 1 then Spent else Denied(ConnectionFailed)
        else if e.EIndication? && e.empty then Stopped(MalformedFrame)
        else if e.EAck? then Stopped(ConnectionFailed)
        else if e.EConnectResponse? || e.EDisconnectResponse? then Stopped(InvalidConfiguration)
        else Answered
  }

  predicate PassedOver(e: Event, channel: Byte, inc: Incoming) {
    || (e.EAck? && e.status == 0)
    || (e.EIndication? && (e.channel != channel || (!e.empty && inc.valid && e.sequence != inc.next)))
    || ((e.EHeartbeatResponse? || e.EHeartbeatRequest? || e.EDisconnectRequest?) && e.channel != channel)
  }

  /** What each ending leaves behind: the result, and the session in one of the given states. */
  predicate Ends(p: Progress, ending: Ending, waiting: Lifecycle, denied: Lifecycle, spent: Error) {
    match ending
    case Unanswered => p.result == None && p.session.state == waiting
    case Answered => p.result == Some(Done)
    case Spent => p.result == Some(Failed(spent)) && p.session.state == Closed
    case Denied(error) => p.result == Some(Failed(error)) && p.session.state == denied
    case Stopped(error) => p.result == Some(Failed(error)) && p.session.state == waiting
  }

  /** A connect ends so, with a retry budget of which something is left. */
  predicate JoinEnds(budget: nat, left: nat, replies: seq<Reply>, p: Progress) {
    var ending := JoinEnding(replies, budget == 0xFFFF, left);
    Ends(p, ending, Connecting, Idle, TimedOut) && (ending == Answered ==> p.session.state == Connected)
  }

  predicate LeaveEnds(budget: nat, left: nat, channel: Byte, replies: seq<Reply>, p: Progress) {
    var ending := LeaveEnding(replies, budget == 0xFFFF, left, channel);
    Ends(p, ending, Closing, Closing, TimedOut) && (ending == Answered ==> p.session.state == Closed)
  }

  predicate BeatEnds(s: Session, replies: seq<Reply>, p: Progress) {
    FailuresLeft(s) >= 1 &&
    Ends(p, BeatEnding(replies, FailuresLeft(s), s.channel, s.inc), Connected, Connected, HeartbeatFailed)
  }

  /**
  A connect ends as the replies say: connected, back to idle when refused, still connecting when something
  else stopped it, and closed by the silence after the budget, which the largest budget never reaches.
  */
  lemma {:induction false} JoinFollowsReplies(s: Session, replies: seq<Reply>)
    requires Inv(s) && s.state == Connecting && !s.stream && Datagrams(replies)
    ensures JoinEnds(s.config.maxRetries, s.config.maxRetries - s.tries.connect, replies, Exchange(Join, s, replies))
    decreases |replies|
  {
    if replies != [] {
      if replies[0].Silence? {
        JoinSilence(s, replies);
      } else if replies[0].Arrived? {
        JoinArrival(s, replies[0].event);
      }
    }
  }

  /** What a connecting session makes of one datagram. */
  lemma JoinArrival(s: Session, e: Event)
    requires Inv(s) && s.state == Connecting && Datagram(e)
    ensures var (t, r) := Apply(s, e);
            if !e.EConnectResponse? then r == Failed(JoinError(e)) && t == s
            else if !e.ok then r == Failed(ConnectionFailed) && t.state == Idle
            else if e.channel == 0 then r == Failed(SequenceError) && t.state == Idle
            else r == Done && t.state == Connected
  {
  }

  lemma {:induction false} JoinSilence(s: Session, replies: seq<Reply>)
    requires Inv(s) && s.state == Connecting && !s.stream && Datagrams(replies) && replies != [] && replies[0].Silence?
    ensures JoinEnds(s.config.maxRetries, s.config.maxRetries - s.tries.connect, replies, Exchange(Join, s, replies))
    decreases |replies|, 0
  {
    var (t, r) := OnConnectTimeout(s);
    DeadlineInv(s, EConnectTimeout);
    if r == Done {
      JoinFollowsReplies(t, replies[1..]);
      if s.config.maxRetries == 0xFFFF {
        EndlessJoin(replies[1..], s.config.maxRetries - t.tries.connect, s.config.maxRetries - s.tries.connect);
      }
    }
  }

  /** Attempts left do not matter to an endless wait. */
  lemma {:induction false} EndlessJoin(replies: seq<Reply>, a: nat, b: nat)
    ensures JoinEnding(replies, true, a) == JoinEnding(replies, true, b)
    decreases |replies|
  {
    if replies != [] && replies[0].Silence? {
      EndlessJoin(replies[1..], a, b);
    }
  }

  lemma {:induction false} EndlessLeave(replies: seq<Reply>, a: nat, b: nat, channel: Byte)
    ensures LeaveEnding(replies, true, a, channel) == LeaveEnding(replies, true, b, channel)
    decreases |replies|
  {
    if replies != [] {
      EndlessLeave(replies[1..], a, b, channel);
    }
  }

  /** What a closing session makes of a silence. */
  lemma LeaveSilence(s: Session)
    requires Inv(s) && s.state == Closing && !s.stream && s.tries.disconnect <= s.config.maxRetries
    ensures var (t, r) := OnDisconnectTimeout(s);
            var rest := AfterSilence(s.config.maxRetries == 0xFFFF, s.config.maxRetries - s.tries.disconnect);
            if rest == None then r == Failed(TimedOut) && t.state == Closed
            else && r == Done && Inv(t) && t.state == Closing && !t.stream && t.channel == s.channel && t.config == s.config
                 && t.tries.disconnect <= t.config.maxRetries
                 && (s.config.maxRetries < 0xFFFF ==> t.config.maxRetries - t.tries.disconnect == rest.value)
  {
    DeadlineInv(s, EDisconnectTimeout);
  }

  /** A disconnect likewise: closed when answered or given up, still closing otherwise. */
  lemma {:induction false} LeaveFollowsReplies(s: Session, replies: seq<Reply>)
    requires Inv(s) && s.state == Closing && !s.stream && s.tries.disconnect <= s.config.maxRetries
    ensures LeaveEnds(s.config.maxRetries, s.config.maxRetries - s.tries.disconnect, s.channel, replies,
                      Exchange(Leave, s, replies))
    decreases |replies|
  {
    if replies != [] {
      if replies[0].Silence? {
        LeaveSilence(s);
        var (t, r) := OnDisconnectTimeout(s);
        if r == Done {
          LeaveFollowsReplies(t, replies[1..]);
          if s.config.maxRetries == 0xFFFF {
            EndlessLeave(replies[1..], s.config.maxRetries - t.tries.disconnect,
                         s.config.maxRetries - s.tries.disconnect, s.channel);
          }
        }
      } else if replies[0].Arrived? && !replies[0].event.EDisconnectResponse? {
        LeaveFollowsReplies(s, replies[1..]);
      }
    }
  }

  /** The failures a session bears, the last of which closes it. */
  function FailuresLeft(s: Session): int {
    (if s.config.heartbeatLimit == 0 then 1 else s.config.heartbeatLimit) - s.heart.failures
  }

  /** What a connected session makes of a silence. */
  lemma BeatSilence(s: Session)
    requires Inv(s) && s.state == Connected
    ensures FailuresLeft(s) >= 1
    ensures var (t, r) := OnHeartbeatTimeout(s);
            if FailuresLeft(s) == 1 then r == Failed(HeartbeatFailed) && t.state == Closed
            else && r == Failed(ConnectionFailed) && Inv(t) && FailuresLeft(t) == FailuresLeft(s) - 1
                 && t == s.(heart := t.heart)
  {
    DeadlineInv(s, EHeartbeatTimeout);
  }

  /** A heartbeat: it closes the session with the failure that reaches the limit, and not before. */
  lemma {:induction false} BeatFollowsReplies(s: Session, replies: seq<Reply>)
    requires Inv(s) && s.state == Connected && !s.stream && Datagrams(replies)
    ensures BeatEnds(s, replies, Exchange(Beat, s, replies))
    decreases |replies|
  {
    BeatSilence(s);
    if replies != [] {
      if replies[0].Silence? {
        if FailuresLeft(s) > 1 {
          BeatFollowsReplies(OnHeartbeatTimeout(s).0, replies[1..]);
        }
      } else if replies[0].Arrived? {
        if PassedOver(replies[0].event, s.channel, s.inc) {
          BeatArrival(s, replies[0].event);
          BeatFollowsReplies(s, replies[1..]);
        } else {
          BeatStops(s, replies);
        }
      }
    }
  }

  lemma BeatStops(s: Session, replies: seq<Reply>)
    requires Inv(s) && s.state == Connected && !s.stream && Datagrams(replies)
    requires replies != [] && replies[0].Arrived? && !PassedOver(replies[0].event, s.channel, s.inc)
    requires FailuresLeft(s) >= 1
    ensures BeatEnds(s, replies, Exchange(Beat, s, replies))
  {
    BeatArrival(s, replies[0].event);
  }

  /** What a connected session makes of one datagram while it waits for a heartbeat's answer. */
  lemma BeatArrival(s: Session, e: Event)
    requires Inv(s) && s.state == Connected && !s.stream && Datagram(e)
    ensures var (t, r) := Apply(s, e);
            && (r == Failed(SequenceError) <==> PassedOver(e, s.channel, s.inc))
            && (PassedOver(e, s.channel, s.inc) ==> t == s)
            && (!PassedOver(e, s.channel, s.inc) && e.EHeartbeatResponse? && !e.ok ==>
                  if FailuresLeft(s) <= 1 then r == Failed(HeartbeatFailed) && t.state == Closed
                  else r == Failed(ConnectionFailed) && t.state == Connected)
            && (r == Failed(MalformedFrame) <==> !PassedOver(e, s.channel, s.inc) && e.EIndication? && e.empty)
            && (e.EAck? && e.status != 0 ==> r == Failed(ConnectionFailed))
            && (e.EConnectResponse? || e.EDisconnectResponse? ==> r == Failed(InvalidConfiguration))
            && (r.Failed? && !e.EHeartbeatResponse? ==> t == s)
            && (r == Done <==> Acceptable(s, e))
  {
    AcceptsExactly(s, e);
  }

  // ---------------------------------------------------------------- all four

  /** An exchange that its session is in the state for ends as the replies say. */
  predicate FollowsReplies(kind: Kind, s: Session, replies: seq<Reply>, p: Progress)
    requires Inv(s)
  {
    var budget := s.config.maxRetries;
    match kind
    case Request =>
      s.out.pending ==> EndsAs(p, Judge(replies, budget - s.out.retries, s.channel, s.out.expected), |replies|)
    case Beat => s.state == Connected ==> BeatEnds(s, replies, p)
    case Join => s.state == Connecting ==> JoinEnds(budget, budget - s.tries.connect, replies, p)
    case Leave =>
      s.state == Closing && s.tries.disconnect <= budget ==>
        LeaveEnds(budget, budget - s.tries.disconnect, s.channel, replies, p)
  }

  function Silences(replies: seq<Reply>): nat
    decreases |replies|
  {
    if replies == [] then 0 else (if replies[0].Silence? then 1 else 0) + Silences(replies[1..])
  }

  /**
  A packet is transmitted once, and once more for each reply the exchange goes on after; a disconnect only
  for each silence, never for what it reads past.
  */
  lemma {:induction false} TransmissionsCounted(kind: Kind, s: Session, replies: seq<Reply>)
    ensures var p, most := Exchange(kind, s, replies), 1 + if kind == Leave then Silences(replies) else |replies|;
            p.sent <= most && (p.result == None ==> p.sent == most)
    decreases |replies|
  {
    if replies != [] {
      TransmissionsCounted(kind, Hear(kind, s, replies[0]).0, replies[1..]);
    }
  }

  lemma ExchangeFollowsReplies(kind: Kind, s: Session, replies: seq<Reply>)
    requires Inv(s) && !s.stream && Datagrams(replies)
    ensures FollowsReplies(kind, s, replies, Exchange(kind, s, replies))
  {
    if kind == Request && s.out.pending {
      AwaitFollowsVerdict(s, replies);
    } else if kind == Beat && s.state == Connected {
      BeatFollowsReplies(s, replies);
    } else if kind == Join && s.state == Connecting {
      JoinFollowsReplies(s, replies);
    } else if kind == Leave && s.state == Closing && s.tries.disconnect <= s.config.maxRetries {
      LeaveFollowsReplies(s, replies);
    }
  }
}
