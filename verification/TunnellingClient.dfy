/**
The tunnelling client over a datagram transport: waiting for a telegram, watching the tunnel, and its
operations as loops over the session.

The client runs one operation at a time, so between operations only the session remains.
*/
module TunnellingClient {

  import opened Results
  import opened TunnellingSession
  import opened TunnellingExchanges

  // ---------------------------------------------------------------- receiving a telegram

  /**
  One datagram of a receive: when the wait for it began, when it came, the telegram it carries, whether its
  acknowledgement could be sent, and whether Data Secure would open it.
  */
  datatype Item =
    | Lost(fault: Error, began: nat)
    | Item(event: Event, began: nat, now: nat, telegram: Packet, ackSent: bool, opens: bool)

  /** What became of one tunnelled request. */
  datatype Taken = Taken(session: Session, acked: bool, delivered: bool, refusal: Option<Error>)

  /** Accept, acknowledge, deliver. A repeat is acknowledged and dropped; whatever else is refused is not acknowledged. */
  function TakeRequest(s: Session, e: Event, now: nat, ackSent: bool, opens: bool): Taken
    requires e.EIndication?
  {
    var (t, r) := Dispatch(s, e, now);
    var repeat := r == Failed(SequenceError) && Duplicate(t, e.channel, e.sequence);
    if r != Done && !repeat then Taken(t, false, false, Some(r.error))
    else if !ackSent then Taken(t, false, false, Some(ConnectionFailed))
    else Taken(t, true, !repeat && opens, None)
  }

  datatype Receiving = Receiving(session: Session, result: Option<Result<Packet, Error>>)

  /** One turn of `receive_cemi_impl`: no result means the datagram is waited past. */
  function Handle(s: Session, item: Item): Receiving {
    var (checked, live) := CheckInactivity(s, item.began);
    if live != Done then Receiving(checked, Some(Err(live.error)))
    else if item.Lost? then Receiving(checked, Some(Err(item.fault)))
    else
      var e := item.event;
      var seen := NoteActivity(checked, item.now);
      if e.EIndication? then
        var taken := TakeRequest(seen, e, item.now, item.ackSent, item.opens);
        if taken.refusal.Some? then Receiving(taken.session, Some(Err(taken.refusal.value)))
        else Receiving(taken.session, if taken.delivered then Some(Ok(item.telegram)) else None)
      else if e.EAck? then Receiving(seen, None)
      else if e.EHeartbeatResponse? then
        var (t, r) := Apply(seen, e);
        Receiving(t, if r == Done then None else Some(Err(r.error)))
      else Receiving(seen, Some(Err(UnsupportedService)))
  }

  lemma HandleInv(s: Session, item: Item)
    requires Inv(s) && (item.Item? ==> Datagram(item.event))
    ensures Inv(Handle(s, item).session) && Handle(s, item).session.stream == s.stream
  {
    var checked := CheckInactivity(s, item.began).0;
    DeadlineInv(s, ECheckInactivity(item.began));
    if item.Item? {
      var seen := NoteActivity(checked, item.now);
      assert Inv(seen) && seen.stream == s.stream by {
        CalledInv(checked, ENoteActivity(item.now));
      }
      DispatchInv(seen, item.event, item.now);
      DatagramInv(seen, item.event);
    }
  }

  function ReceiveTelegram(s: Session, items: seq<Item>): Receiving
    decreases |items|
  {
    if s.state == Closed then Receiving(s, Some(Err(ShutDown)))
    else if items == [] then Receiving(s, None)
    else
      var handled := Handle(s, items[0]);
      if handled.result.Some? then handled else ReceiveTelegram(handled.session, items[1..])
  }

  /** The datagram a received telegram came in: acknowledged, opened, and the one the session last accepted. */
  predicate Brought(item: Item, telegram: Packet, end: Session) {
    && item.Item? && item.event.EIndication? && item.telegram == telegram && item.ackSent && item.opens
    && end.state == Connected && item.event.channel == end.channel
    && end.inc == Incoming(true, item.event.sequence, (item.event.sequence + 1) % 256)
  }

  lemma HandedOver(s: Session, item: Item)
    requires Handle(s, item).result.Some? && Handle(s, item).result.value.Ok?
    ensures Brought(item, Handle(s, item).result.value.value, Handle(s, item).session)
  {
  }

  /** A receive hands over only what its session has just accepted as new, never a repeat, and has acknowledged it. */
  lemma {:induction false} ReceivedIsNew(s: Session, items: seq<Item>)
    requires ReceiveTelegram(s, items).result.Some? && ReceiveTelegram(s, items).result.value.Ok?
    ensures exists k :: 0 <= k < |items| &&
              Brought(items[k], ReceiveTelegram(s, items).result.value.value, ReceiveTelegram(s, items).session)
    decreases |items|
  {
    var handled := Handle(s, items[0]);
    if handled.result.Some? {
      HandedOver(s, items[0]);
    } else {
      ReceivedIsNew(handled.session, items[1..]);
      var k :| 0 <= k < |items[1..]| &&
        Brought(items[1..][k], ReceiveTelegram(s, items).result.value.value, ReceiveTelegram(s, items).session);
      assert Brought(items[k + 1], ReceiveTelegram(s, items).result.value.value, ReceiveTelegram(s, items).session);
    }
  }

  /** `receive_datagram`: whatever arrives is handed to the caller, and only the activity is noted. */
  function ReceiveDatagram(s: Session, item: Item): (Session, Result<Event, Error>) {
    if s.state == Closed then (s, Err(ShutDown))
    else
      var (checked, live) := CheckInactivity(s, item.began);
      if live != Done then (checked, Err(live.error))
      else if item.Lost? then (checked, Err(item.fault))
      else (NoteActivity(checked, item.now), Ok(item.event))
  }

  /**
  It is documented to apply the datagram to the session. A datagram that is returned was not applied: the
  session is as it was but for the time of activity, even if it is the acknowledgement awaited.
  */
  lemma ReceiveDatagramAppliesNothing(s: Session, item: Item)
    ensures var (t, r) := ReceiveDatagram(s, item);
            && (r.Ok? <==> s.state != Closed && item.Item? && !InactiveAt(s, item.began))
            && (r.Ok? ==> r.value == item.event && t == s.(lastActivity := t.lastActivity))
            && (r.Ok? && s.state != Connected ==> t == s)
  {
  }

  // ---------------------------------------------------------------- watching the tunnel

  function Poll(s: Session, now: nat): (Session, Outcome) {
    var (checked, live) := CheckInactivity(s, now);
    if live != Done then (checked, live) else CheckHeartbeat(checked, now)
  }

  // ---------------------------------------------------------------- an abandoned request

  datatype Operation =
    | OpConnect(packet: Packet, deadline: nat, replies: seq<Reply>)
    | OpSend(packet: Packet, deadline: nat, replies: seq<Reply>)
    | OpHeartbeat(replies: seq<Reply>)
    | OpReceive(items: seq<Item>)
    | OpReceiveDatagram(item: Item)
    | OpDisconnect(replies: seq<Reply>)
    | OpPoll(now: nat)
    | OpShutdown
    | OpReset

  function After(s: Session, op: Operation): Session {
    match op
    case OpConnect(packet, deadline, replies) => JoinTunnel(s, packet, deadline, replies).session
    case OpSend(packet, deadline, replies) => SendRequest(s, packet, deadline, replies).session
    case OpHeartbeat(replies) => SendHeartbeat(s, replies).session
    case OpReceive(items) => ReceiveTelegram(s, items).session
    case OpReceiveDatagram(item) => ReceiveDatagram(s, item).0
    case OpDisconnect(replies) => LeaveTunnel(s, replies).session
    case OpPoll(now) => Poll(s, now).0
    case OpShutdown => Shutdown(s)
    case OpReset => Reset(s)
  }

  /** The operation reports success. */
  predicate Succeeds(s: Session, op: Operation) {
    match op
    case OpConnect(packet, deadline, replies) => JoinTunnel(s, packet, deadline, replies).result == Some(Done)
    case OpSend(packet, deadline, replies) => SendRequest(s, packet, deadline, replies).result == Some(Done)
    case OpHeartbeat(replies) => SendHeartbeat(s, replies).result == Some(Done)
    case OpReceive(items) => ReceiveTelegram(s, items).result.Some? && ReceiveTelegram(s, items).result.value.Ok?
    case OpReceiveDatagram(item) => ReceiveDatagram(s, item).1.Ok?
    case OpDisconnect(replies) => LeaveTunnel(s, replies).result == Some(Done)
    case OpPoll(now) => Poll(s, now).1 == Done
    case OpShutdown => true
    case OpReset => true
  }

  /** The operations that use the tunnel, as against watching it or ending it. */
  predicate UsesTunnel(op: Operation) {
    op.OpConnect? || op.OpSend? || op.OpHeartbeat? || op.OpReceive? || op.OpDisconnect?
  }

  function AfterAll(s: Session, ops: seq<Operation>): Session
    decreases |ops|
  {
    if ops == [] then s else AfterAll(After(s, ops[0]), ops[1..])
  }

  /** A receive on a session that waits for an acknowledgement: acknowledgements are dropped, all else is an error. */
  lemma {:induction false} ReceiveWhileWaiting(s: Session, items: seq<Item>)
    requires Inv(s) && s.state == WaitingAck
    ensures ReceiveTelegram(s, items).session == s
    ensures ReceiveTelegram(s, items).result.Some? ==> ReceiveTelegram(s, items).result.value.Err?
    decreases |items|
  {
    if items != [] && items[0].Item? && items[0].event.EAck? {
      ReceiveWhileWaiting(s, items[1..]);
    }
  }

  /** The request stays outstanding: same number, same octets, same retries. */
  lemma WaitingStep(s: Session, op: Operation)
    requires Inv(s) && s.state == WaitingAck && !op.OpShutdown? && !op.OpReset?
    ensures After(s, op) == s.(heart := After(s, op).heart) && Inv(After(s, op))
    ensures UsesTunnel(op) ==> !Succeeds(s, op)
    ensures op.OpReceiveDatagram? ==> (Succeeds(s, op) <==> op.item.Item?)
    ensures op.OpPoll? ==> (Succeeds(s, op) <==> !s.heart.outstanding || SignedDifference(op.now, s.heart.deadline) < 0)
  {
    if op.OpReceive? {
      ReceiveWhileWaiting(s, op.items);
    } else if op.OpPoll? {
      StepInv(s, ECheckHeartbeat(op.now));
    }
  }

  /**
  An abandoned request is never finished. Until the client is shut down or reset, in any sequence of
  operations and whatever arrives, the session keeps waiting with the request outstanding; connecting,
  sending, the heartbeat, receiving telegrams and disconnecting all fail. A raw receive may hand over even
  the acknowledgement awaited, and poll may report nothing amiss; neither changes that.
  */
  lemma {:induction false} AbandonedForGood(s: Session, ops: seq<Operation>, k: nat)
    requires Inv(s) && s.state == WaitingAck
    requires OpShutdown !in ops && OpReset !in ops && k < |ops|
    ensures var t := AfterAll(s, ops[..k]); t == s.(heart := t.heart)
    ensures UsesTunnel(ops[k]) ==> !Succeeds(AfterAll(s, ops[..k]), ops[k])
    ensures var t := AfterAll(s, ops); t == s.(heart := t.heart)
    decreases |ops|
  {
    assert ops[0] in ops;
    WaitingStep(s, ops[0]);
    var next := After(s, ops[0]);
    if |ops| > 1 {
      AbandonedForGood(next, ops[1..], if k > 0 then k - 1 else 0);
    }
    if k > 0 {
      assert ops[..k][1..] == ops[1..][..k - 1];
    }
  }

  // ---------------------------------------------------------------- the operations as loops

  class Client {
    var session: Session

    ghost predicate Valid()
      reads this
    {
      Inv(session) && !session.stream
    }

    constructor (config: Config)
      requires config.Valid()
      ensures Valid() && session == Fresh(config, false)
    {
      session := Fresh(config, false);
    }

    /** Sends a request and waits for its acknowledgement; from a connected session it ends as the replies say. */
    method Send(packet: Packet, deadline: nat, replies: seq<Reply>)
      returns (r: Option<Outcome>, sent: nat)
      requires Valid() && packet != [] && Datagrams(replies)
      modifies this
      ensures Valid()
      ensures Progress(session, r, sent) == SendRequest(old(session), packet, deadline, replies)
      ensures old(session).state == Connected ==>
                EndsAs(Progress(session, r, sent),
                       Judge(replies, old(session).config.maxRetries, old(session).channel, old(session).out.next),
                       |replies|)
    {
      if session.state == Connected {
        SendLeavesWaitingExactlyWhen(session, packet, deadline, replies);
      }
      StepInv(session, ESend(session.channel, packet, deadline));
      var started := TunnellingSession.Send(session, session.channel, packet, deadline);
      session := started.0;
      if started.1 != Done {
        return Some(started.1), 0;
      }
      r, sent := Exchanging(Request, replies);
    }

    /** Waits for the answer to a heartbeat; whatever the session accepts first will do. */
    method Heartbeat(replies: seq<Reply>) returns (r: Option<Outcome>, sent: nat)
      requires Valid() && Datagrams(replies)
      modifies this
      ensures Valid()
      ensures Progress(session, r, sent) == SendHeartbeat(old(session), replies)
      ensures old(session).state == Connected ==> BeatEnds(old(session), replies, Progress(session, r, sent))
      ensures old(session).state == Connected && replies != [] && replies[0].Arrived? ==>
                (sent == 1 && r == Some(Done) <==> Acceptable(old(session), replies[0].event))
    {
      if session.state != Connected {
        return Some(Failed(ShutDown)), 0;
      }
      if replies != [] && replies[0].Arrived? {
        HeartbeatContentExactlyWith(session, replies);
      }
      r, sent := Exchanging(Beat, replies);
    }

    /** Connects, and says how it ended from the replies. */
    method Connect(packet: Packet, deadline: nat, replies: seq<Reply>)
      returns (r: Option<Outcome>, sent: nat)
      requires Valid() && Datagrams(replies)
      modifies this
      ensures Valid()
      ensures Progress(session, r, sent) == JoinTunnel(old(session), packet, deadline, replies)
      ensures sent == 0 <==> old(session).state != Idle || !(HEADER_SIZE <= |packet| <= MAX_DATAGRAM)
      ensures sent > 0 ==>
                JoinEnds(old(session).config.maxRetries, old(session).config.maxRetries, replies, Progress(session, r, sent))
    {
      CalledInv(session, EStartConnect(packet, deadline));
      var started := StartConnect(session, packet, deadline);
      session := started.0;
      if started.1 != Done {
        return Some(started.1), 0;
      }
      r, sent := Exchanging(Join, replies);
    }

    /** Disconnects, and says how it ended from the replies. */
    method Disconnect(replies: seq<Reply>) returns (r: Option<Outcome>, sent: nat)
      requires Valid() && Datagrams(replies)
      modifies this
      ensures Valid()
      ensures Progress(session, r, sent) == LeaveTunnel(old(session), replies)
      ensures sent == 0 <==> old(session).state != Connected
      ensures sent > 0 ==>
                LeaveEnds(old(session).config.maxRetries, old(session).config.maxRetries, old(session).channel, replies,
                          Progress(session, r, sent))
    {
      CalledInv(session, EDisconnect);
      var started := TunnellingSession.Disconnect(session);
      session := started.0;
      if started.1 != Done {
        return Some(started.1), 0;
      }
      r, sent := Exchanging(Leave, replies);
    }

    /** Waits for the next telegram, handling bookkeeping and acknowledging requests on the way. */
    method Receive(items: seq<Item>) returns (r: Option<Result<Packet, Error>>)
      requires Valid() && forall i :: 0 <= i < |items| && items[i].Item? ==> Datagram(items[i].event)
      modifies this
      ensures Valid()
      ensures Receiving(session, r) == ReceiveTelegram(old(session), items)
      ensures r.Some? && r.value.Ok? ==> exists k :: 0 <= k < |items| && Brought(items[k], r.value.value, session)
    {
      ghost var all := ReceiveTelegram(session, items);
      if all.result.Some? && all.result.value.Ok? {
        ReceivedIsNew(session, items);
      }
      var i := 0;
      while true
        invariant 0 <= i <= |items| && Valid()
        invariant all == ReceiveTelegram(session, items[i..])
        decreases |items| - i
      {
        if session.state == Closed {
          return Some(Err(ShutDown));
        }
        if i == |items| {
          return None;
        }
        var item := items[i];
        HandleInv(session, item);
        var handled := Handle(session, item);
        session := handled.session;
        if handled.result.Some? {
          return handled.result;
        }
        assert items[i..][1..] == items[i + 1..];
        i := i + 1;
      }
    }

    /** Transmits the packet, always the same octets, until the exchange ends as the replies say. */
    method Exchanging(kind: Kind, replies: seq<Reply>)
      returns (r: Option<Outcome>, sent: nat)
      requires Valid() && Datagrams(replies)
      modifies this
      ensures Valid()
      ensures Progress(session, r, sent) == Exchange(kind, old(session), replies)
      ensures FollowsReplies(kind, old(session), replies, Progress(session, r, sent))
    {
      sent := 1;
      ExchangeFollowsReplies(kind, session, replies);
      ExchangeInv(kind, session, replies);
      ghost var all := Exchange(kind, session, replies);
      var i := 0;
      while i < |replies|
        invariant 0 <= i <= |replies| && sent >= 1
        invariant all == Later(Exchange(kind, session, replies[i..]), sent - 1)
      {
        var reply := replies[i];
        ExchangeFrom(kind, session, replies, i);
        var heard := Hear(kind, session, reply);
        session := heard.0;
        if !GoesOn(kind, reply, heard.1) {
          return Some(heard.1), sent;
        }
        sent := sent + Retransmissions(kind, reply);
        i := i + 1;
      }
      return None, sent;
    }
  }
}
