/**
What the client sends to the server. The client has one request outstanding at a time and sends it again
until it is acknowledged, so each request is accepted by the server at most once and in order. Accepting is
not delivering: a request whose acknowledgement cannot be sent, or whose event nobody takes, is accepted and
dropped. What is delivered is exactly the rest.
*/
module TunnellingUplink {

  import opened TunnellingSession
  import opened TunnellingServer
  import opened TunnellingLink

  // ---------------------------------------------------------------- the invariant

  /** The client's numbering, its retained request and its frames all agree with what it issued. */
  predicate Numbered(c: ClientEnd) {
    var n := |c.issued|;
    && c.session.out.next == n % 256
    && (c.session.out.pending ==>
          n > 0 && c.session.out.expected == (n - 1) % 256 && c.session.out.request == c.issued[n - 1])
    && (forall i :: 0 <= i < n ==> Frame(i, i % 256, c.issued[i]) in c.wire)
    && (forall f :: f in c.wire ==> f.n < n && f.sequence == f.n % 256 && f.packet == c.issued[f.n])
  }

  /** The channel follows the numbering of what it accepted, and nothing else was acknowledged. */
  predicate Followed(s: ServerEnd) {
    var m, inc := |s.fates|, s.slot.inc;
    && (s.slot.active ==> (inc.valid <==> m > 0))
    && (s.slot.active && m > 0 ==> inc.last == (m - 1) % 256 && inc.next == m % 256)
    && (forall a :: a in s.acks ==> a.n < m && a.sequence == a.n % 256)
  }

  /** The requests with a good fate, in order. */
  function Kept(issued: seq<Packet>, fates: seq<bool>): seq<Delivery>
    requires |fates| <= |issued|
  {
    if fates == [] then []
    else
      var k := |fates| - 1;
      Kept(issued, fates[..k]) + if fates[k] then [Delivery(k, issued[k])] else []
  }

  /** The client has no request outstanding and gave none up. */
  predicate Clear(c: ClientEnd) {
    !c.session.out.pending && c.session.state != Closed
  }

  /** Everything issued has been accepted, but perhaps for the request outstanding or given up. */
  predicate Synced(c: ClientEnd, s: ServerEnd) {
    && |c.issued| - 1 <= |s.fates| <= |c.issued|
    && (Clear(c) ==> |s.fates| == |c.issued|)
    && s.delivered == Kept(c.issued, s.fates)
  }

  predicate UpInv(w: World) {
    Tunnel(w) && Numbered(w.client) && Followed(w.server) && Synced(w.client, w.server)
  }

  // ---------------------------------------------------------------- what is kept

  lemma {:induction false} KeptIgnoresLater(issued: seq<Packet>, packet: Packet, fates: seq<bool>)
    requires |fates| <= |issued|
    ensures Kept(issued + [packet], fates) == Kept(issued, fates)
    decreases |fates|
  {
    if fates != [] {
      KeptIgnoresLater(issued, packet, fates[..|fates| - 1]);
    }
  }

  lemma KeptExtends(issued: seq<Packet>, fates: seq<bool>, fate: bool)
    requires |fates| < |issued|
    ensures Kept(issued, fates + [fate]) ==
            Kept(issued, fates) + if fate then [Delivery(|fates|, issued[|fates|])] else []
  {
    assert (fates + [fate])[..|fates|] == fates;
  }

  /** Exactly the requests with a good fate, each once and in the order issued. */
  lemma {:induction false} KeptIsExact(issued: seq<Packet>, fates: seq<bool>)
    requires |fates| <= |issued|
    ensures |Kept(issued, fates)| <= |fates|
    ensures forall d :: d in Kept(issued, fates) <==> d.n < |fates| && fates[d.n] && d.packet == issued[d.n]
    ensures forall i, j :: 0 <= i < j < |Kept(issued, fates)| ==> Kept(issued, fates)[i].n < Kept(issued, fates)[j].n
    decreases |fates|
  {
    if fates != [] {
      var k := |fates| - 1;
      KeptIsExact(issued, fates[..k]);
      var before := Kept(issued, fates[..k]);
      forall i | 0 <= i < |before|
        ensures before[i].n < k
      {
        assert before[i] in before;
      }
      forall d: Delivery
        ensures d in Kept(issued, fates) <==> d.n < |fates| && fates[d.n] && d.packet == issued[d.n]
      {
        assert d in Kept(issued, fates) <==> d in before || (fates[k] && d == Delivery(k, issued[k]));
      }
    }
  }

  /** Nothing was dropped exactly when everything accepted was delivered, request by request. */
  lemma {:induction false} KeptAll(issued: seq<Packet>, fates: seq<bool>)
    requires |fates| <= |issued|
    ensures |Kept(issued, fates)| == |fates| <==> forall i :: 0 <= i < |fates| ==> fates[i]
    ensures |Kept(issued, fates)| == |fates| ==>
              forall i :: 0 <= i < |fates| ==> Kept(issued, fates)[i] == Delivery(i, issued[i])
    decreases |fates|
  {
    if fates != [] {
      var k := |fates| - 1;
      KeptAll(issued, fates[..k]);
      KeptIsExact(issued, fates[..k]);
    }
  }

  // ---------------------------------------------------------------- each move keeps it

  lemma IssueInv(w: World, m: Move)
    requires UpInv(w) && m.Issue? && CanMove(w, m)
    ensures UpInv(Moved(w, m))
  {
    TunnelStep(w, m);
    NextResidue(|w.client.issued| + 1);
    KeptIgnoresLater(w.client.issued, m.packet, w.server.fates);
  }

  lemma RetransmitInv(w: World)
    requires UpInv(w) && CanMove(w, Retransmit)
    ensures UpInv(Moved(w, Retransmit))
  {
  }

  /** In time, the next request is the only one the server accepts, and the last one the only repeat. */
  lemma OnlyTheNextIsAccepted(w: World, f: Frame)
    requires UpInv(w) && f in w.client.wire && |w.client.issued| - f.n <= 255
    ensures IsNew(w, f) <==> w.server.slot.active && f.n == |w.server.fates|
    ensures Classify(w.server.slot, Held(w), f.sequence).1 == Repeat <==>
            w.server.slot.active && f.n == |w.server.fates| - 1
  {
    var m, inc := |w.server.fates|, w.server.slot.inc;
    if w.server.slot.active && m > 0 {
      if f.sequence == inc.next {
        SameResidue(f.n, m);
      }
      if f.sequence == inc.last {
        SameResidue(f.n, m - 1);
      }
    }
  }

  /** What taking a frame does to the channel: a new one moves the numbering, a repeat or a refusal does not. */
  lemma TakeKeeps(w: World, m: Move)
    requires m.Take? && CanMove(w, m)
    ensures var f, s, t := m.frame, w.server, Moved(w, m).server;
            var isNew := IsNew(w, f);
            && t.slot.active == s.slot.active
            && t.slot.inc == (if isNew then Incoming(true, f.sequence, (f.sequence + 1) % 256) else s.slot.inc)
            && t.fates == s.fates + (if isNew then [m.ackSent && m.handed] else [])
            && t.delivered == s.delivered + (if isNew && m.ackSent && m.handed then [Delivery(f.n, f.packet)] else [])
            && t.acks <= s.acks + {Ack(f.n, f.sequence)}
            && (m.ackSent && Classify(s.slot, Held(w), f.sequence).1 != Refused ==> Ack(f.n, f.sequence) in t.acks)
            && (Classify(s.slot, Held(w), f.sequence).1 == Refused ==> t.acks == s.acks)
  {
  }

  lemma TakeInv(w: World, m: Move)
    requires UpInv(w) && m.Take? && CanMove(w, m) && TimelyMove(Up, w, m)
    ensures UpInv(Moved(w, m))
  {
    OnlyTheNextIsAccepted(w, m.frame);
    TakeKeeps(w, m);
    if IsNew(w, m.frame) {
      AcceptedInv(w, m.frame, m.ackSent && m.handed, Moved(w, m).server);
    } else {
      assert Moved(w, m).server.fates == w.server.fates && Moved(w, m).server.delivered == w.server.delivered;
    }
  }

  /** A channel that has accepted one more request. */
  lemma AcceptedInv(w: World, f: Frame, fate: bool, s: ServerEnd)
    requires UpInv(w) && f in w.client.wire && f.n == |w.server.fates|
    requires s.slot.inc == Incoming(true, f.sequence, (f.sequence + 1) % 256)
    requires s.fates == w.server.fates + [fate]
    requires s.delivered == w.server.delivered + if fate then [Delivery(f.n, f.packet)] else []
    requires s.acks <= w.server.acks + {Ack(f.n, f.sequence)}
    ensures Followed(s) && Synced(w.client, s)
  {
    NextResidue(f.n + 1);
    KeptExtends(w.client.issued, w.server.fates, fate);
  }

  lemma TakeAckInv(w: World, a: Ack)
    requires UpInv(w) && CanMove(w, TakeAck(a)) && TimelyMove(Up, w, TakeAck(a))
    ensures UpInv(Moved(w, TakeAck(a)))
  {
    TunnelStep(w, TakeAck(a));
    if w.client.session.out.pending && a.sequence == w.client.session.out.expected {
      SameResidue(a.n, |w.client.issued| - 1);
    }
  }

  lemma HearInv(w: World, m: Move)
    requires UpInv(w) && (m.Receive? || m.Overhear?) && CanMove(w, m)
    ensures UpInv(Moved(w, m))
  {
    TunnelStep(w, m);
    IndicationKeeps(w, m.frame, m.now);
  }

  lemma HousekeepInv(w: World, m: Move)
    requires UpInv(w) && m.Housekeep? && CanMove(w, m)
    ensures UpInv(Moved(w, m))
  {
    TunnelStep(w, m);
    HousekeepingKeeps(w.client.session, m.event);
  }

  lemma MoveInv(w: World, m: Move)
    requires UpInv(w) && CanMove(w, m) && TimelyMove(Up, w, m)
    ensures UpInv(Moved(w, m))
  {
    match m
    case Issue(_, _) => IssueInv(w, m);
    case Retransmit => RetransmitInv(w);
    case TakeAck(a) => TakeAckInv(w, a);
    case Receive(_, _, _, _) => HearInv(w, m);
    case Overhear(_, _) => HearInv(w, m);
    case Housekeep(_) => HousekeepInv(w, m);
    case Push(_, _) =>
    case Take(_, _, _, _) => TakeInv(w, m);
    case Release =>
  }

  lemma {:induction false} RunKeepsInv(w: World, run: seq<Move>)
    requires UpInv(w) && Legal(w, run) && Timely(Up, w, run)
    ensures UpInv(Final(w, run))
    decreases |run|
  {
    if run != [] {
      MoveInv(w, run[0]);
      RunKeepsInv(Moved(w, run[0]), run[1..]);
    }
  }

  // ---------------------------------------------------------------- over every run

  /** The fates of the requests the server accepts in a run, told from the moves alone. */
  function FatesIn(w: World, run: seq<Move>): seq<bool>
    requires Legal(w, run)
    decreases |run|
  {
    if run == [] then [] else FateOf(w, run[0]) + FatesIn(Moved(w, run[0]), run[1..])
  }

  lemma {:induction false} FatesAreTheRuns(w: World, run: seq<Move>)
    requires Legal(w, run)
    ensures Final(w, run).server.fates == w.server.fates + FatesIn(w, run)
    decreases |run|
  {
    if run != [] {
      FatesAreTheRuns(Moved(w, run[0]), run[1..]);
      FatesMove(w, run[0]);
    }
  }

  lemma FatesMove(w: World, m: Move)
    requires CanMove(w, m)
    ensures Moved(w, m).server.fates == w.server.fates + FateOf(w, m)
  {
  }

  lemma FatesFromTheStart(w: World, run: seq<Move>)
    requires Linked(w) && Legal(w, run)
    ensures Final(w, run).server.fates == FatesIn(w, run)
  {
    FatesAreTheRuns(w, run);
    assert [] + FatesIn(w, run) == FatesIn(w, run);
  }

  /**
  Over every run: everything the client issued has been accepted but perhaps the request outstanding or given
  up, and what was delivered is exactly the accepted requests whose acceptance went through to delivery, in
  the order issued.
  */
  lemma DeliveredExactlyTheKept(w: World, run: seq<Move>)
    requires Linked(w) && Legal(w, run) && Timely(Up, w, run)
    ensures var end, fates := Final(w, run), FatesIn(w, run);
            && |end.client.issued| - 1 <= |fates| <= |end.client.issued|
            && (end.client.session.state == Connected ==> |fates| == |end.client.issued|)
            && end.server.delivered == Kept(end.client.issued, fates)
  {
    RunKeepsInv(w, run);
    FatesFromTheStart(w, run);
  }

  /** Delivered is issued, request by request, but perhaps for the one outstanding or given up. */
  predicate InStep(c: ClientEnd, s: ServerEnd) {
    && |c.issued| - 1 <= |s.delivered| <= |c.issued|
    && (forall i :: 0 <= i < |s.delivered| ==> s.delivered[i] == Delivery(i, c.issued[i]))
    && (Clear(c) ==> |s.delivered| == |c.issued|)
  }

  /** The client is past a request: it has issued another, or it had this one acknowledged. */
  predicate Past(c: ClientEnd, i: nat) {
    i < |c.issued| - 1 || Clear(c)
  }

  predicate NothingLostBehind(c: ClientEnd, fates: seq<bool>) {
    forall i: nat :: i < |fates| && !fates[i] ==> !Past(c, i)
  }

  lemma InStepExactlyWhen(c: ClientEnd, s: ServerEnd)
    requires Synced(c, s)
    ensures InStep(c, s) <==> NothingLostBehind(c, s.fates)
  {
    if NothingLostBehind(c, s.fates) {
      NothingLostMeansInStep(c, s);
    } else {
      var i: nat :| i < |s.fates| && !s.fates[i] && Past(c, i);
      LostBehindMeansOutOfStep(c, s, i);
    }
  }

  lemma LostBehindMeansOutOfStep(c: ClientEnd, s: ServerEnd, i: nat)
    requires Synced(c, s) && i < |s.fates| && !s.fates[i] && Past(c, i)
    ensures !InStep(c, s)
  {
    KeptIsExact(c.issued, s.fates);
    if i < |s.delivered| {
      assert s.delivered[i] in Kept(c.issued, s.fates);
    }
  }

  lemma NothingLostMeansInStep(c: ClientEnd, s: ServerEnd)
    requires Synced(c, s) && NothingLostBehind(c, s.fates)
    ensures InStep(c, s)
  {
    KeptAll(c.issued, s.fates);
    var m := |s.fates|;
    if m > 0 && !s.fates[m - 1] {
      assert Kept(c.issued, s.fates) == Kept(c.issued, s.fates[..m - 1]);
      KeptAll(c.issued, s.fates[..m - 1]);
    }
  }

  /**
  Over every run, exactly once and in order holds exactly when no request was accepted and dropped that the
  client has since got past.
  */
  lemma ExactlyOnceExactlyWhen(w: World, run: seq<Move>)
    requires Linked(w) && Legal(w, run) && Timely(Up, w, run)
    ensures InStep(Final(w, run).client, Final(w, run).server) <==>
            NothingLostBehind(Final(w, run).client, FatesIn(w, run))
  {
    RunKeepsInv(w, run);
    FatesFromTheStart(w, run);
    InStepExactlyWhen(Final(w, run).client, Final(w, run).server);
  }

  /** Whatever the server receives is acknowledged, and someone takes its event. */
  predicate Careful(run: seq<Move>) {
    forall i :: 0 <= i < |run| && run[i].Take? ==> run[i].ackSent && run[i].handed
  }

  lemma {:induction false} CarefulFates(w: World, run: seq<Move>)
    requires Legal(w, run) && Careful(run)
    ensures forall i :: 0 <= i < |FatesIn(w, run)| ==> FatesIn(w, run)[i]
    decreases |run|
  {
    if run != [] {
      CarefulFates(Moved(w, run[0]), run[1..]);
    }
  }

  /** So a careful run delivers exactly once and in order. */
  lemma ExactlyOnce(w: World, run: seq<Move>)
    requires Linked(w) && Legal(w, run) && Timely(Up, w, run) && Careful(run)
    ensures InStep(Final(w, run).client, Final(w, run).server)
  {
    CarefulFates(w, run);
    ExactlyOnceExactlyWhen(w, run);
  }

  /** Once accepted, a request has been delivered or never will be, whatever follows: retransmission does not help. */
  lemma FateIsFinal(w: World, before: seq<Move>, after: seq<Move>, i: nat)
    requires Linked(w) && Legal(w, before + after) && Timely(Up, w, before + after)
    requires Legal(w, before) && i < |FatesIn(w, before)|
    ensures (exists d :: d in Final(w, before + after).server.delivered && d.n == i) <==> FatesIn(w, before)[i]
  {
    FatesGrow(w, before, after);
    DeliveredExactlyTheKept(w, before + after);
    var end, fates := Final(w, before + after), FatesIn(w, before + after);
    KeptIsExact(end.client.issued, fates);
    if fates[i] {
      assert Delivery(i, end.client.issued[i]) in end.server.delivered;
    }
  }

  lemma FatesGrow(w: World, before: seq<Move>, after: seq<Move>)
    requires Linked(w) && Legal(w, before + after) && Legal(w, before)
    ensures FatesIn(w, before) <= FatesIn(w, before + after)
  {
    RunSplits(w, before, after);
    FatesFromTheStart(w, before);
    FatesFromTheStart(w, before + after);
    FatesAreTheRuns(Final(w, before), after);
  }

  // ---------------------------------------------------------------- exchanges

  /** A retry puts the very frame back on the wire that the request first went out as. */
  lemma RetransmitIsIdentical(w: World, run: seq<Move>)
    requires Linked(w) && Legal(w, run) && Timely(Up, w, run) && CanMove(Final(w, run), Retransmit)
    ensures Moved(Final(w, run), Retransmit) == Final(w, run)
  {
    RunKeepsInv(w, run);
    var c := Final(w, run).client;
    var n := |c.issued| - 1;
    assert c.wire + {Frame(n, n % 256, c.issued[n])} == c.wire;
  }

  /** The frame of the request outstanding. */
  function Outstanding(c: ClientEnd): Frame
    requires c.issued != []
  {
    var n := |c.issued| - 1;
    Frame(n, n % 256, c.issued[n])
  }

  /**
  An exchange that gets through completes, whatever went missing before: once the server has taken the frame
  in any way, taking it again brings an acknowledgement that ends the request. It has been delivered exactly
  if the first way it was taken delivers.
  */
  lemma ExchangeCompletes(w: World, first: Move, again: Move)
    requires UpInv(w) && w.client.session.out.pending && w.server.slot.active
    requires first.Take? && first.frame == Outstanding(w.client)
    requires again.Take? && again.frame == first.frame && again.ackSent
    ensures var n := |w.client.issued| - 1;
            && CanMove(w, first) && TimelyMove(Up, w, first)
            && var seen := Moved(w, first);
            && CanMove(seen, again) && TimelyMove(Up, seen, again)
            && var answered := Moved(seen, again);
            var take := TakeAck(Ack(n, n % 256));
            && CanMove(answered, take) && TimelyMove(Up, answered, take)
            && var done := Moved(answered, take);
            && done.client.session.state == Connected && done.server.slot.active && UpInv(done)
            && done.client.issued == w.client.issued
            && done.server.fates == w.server.fates + if |w.server.fates| == n then [first.ackSent && first.handed] else []
  {
    var n := |w.client.issued| - 1;
    SeesFrame(w, first);
    var seen := Moved(w, first);
    SeesFrame(seen, again);
    var answered := Moved(seen, again);
    TakeAckInv(answered, Ack(n, n % 256));
  }

  /** The server's side of it: the frame is new and gets its fate, or it is a repeat and changes none. */
  lemma SeesFrame(w: World, m: Move)
    requires UpInv(w) && w.server.slot.active && m.Take? && w.client.issued != [] && m.frame == Outstanding(w.client)
    ensures CanMove(w, m)
    ensures var seen := Moved(w, m);
            && UpInv(seen) && seen.server.slot.active && seen.client == w.client
            && seen.server.fates ==
               w.server.fates + (if |w.server.fates| == m.frame.n then [m.ackSent && m.handed] else [])
            && (m.ackSent ==> Ack(m.frame.n, m.frame.sequence) in seen.server.acks)
  {
    OnlyTheNextIsAccepted(w, m.frame);
    TakeKeeps(w, m);
    TakeInv(w, m);
  }

  /** The client is connected, the channel open, and the server has accepted everything issued. */
  predicate Settled(w: World, n: nat) {
    UpInv(w) && |w.client.issued| == n && w.client.session.state == Connected && w.server.slot.active
  }

  /** One more request from a settled world, its frame first taken as `ackSent` and `handed` say. */
  lemma OneExchange(w: World, run: seq<Move>, n: nat, ackSent: bool, handed: bool) returns (more: seq<Move>)
    requires Legal(w, run) && Timely(Up, w, run) && Settled(Final(w, run), n)
    ensures Legal(w, more) && Timely(Up, w, more) && Settled(Final(w, more), n + 1)
    ensures Final(w, more).server.fates == Final(w, run).server.fates + [ackSent && handed]
  {
    var issue := Issue([0], 0);
    IssueInv(Final(w, run), issue);
    Append(Up, w, run, issue);
    var sent := Final(w, run + [issue]);
    var frame := Outstanding(sent.client);
    var first, again := Take(frame, 0, ackSent, handed), Take(frame, 0, true, true);
    ExchangeCompletes(sent, first, again);
    Append(Up, w, run + [issue], first);
    Append(Up, w, run + [issue] + [first], again);
    Append(Up, w, run + [issue] + [first] + [again], TakeAck(Ack(n, n % 256)));
    more := run + [issue] + [first] + [again] + [TakeAck(Ack(n, n % 256))];
  }

  lemma OnlyDropped(c: ClientEnd, s: ServerEnd)
    requires Synced(c, s) && s.fates == [false] && |c.issued| == 1 && Clear(c)
    ensures s.delivered == [] && !InStep(c, s)
  {
    KeptExtends(c.issued, [], false);
    assert [] + [false] == s.fates;
  }

  /**
  A dropped request is within reach of any tunnel: one request whose first acknowledgement cannot be sent, or
  whose event nobody takes, leaves the client connected and the request undelivered.
  */
  lemma DroppedRequestIsReachable(w: World, ackSent: bool, handed: bool) returns (run: seq<Move>)
    requires Linked(w) && !(ackSent && handed)
    ensures Legal(w, run) && Timely(Up, w, run)
    ensures Final(w, run).client.session.state == Connected && |Final(w, run).client.issued| == 1
    ensures Final(w, run).server.delivered == [] && !InStep(Final(w, run).client, Final(w, run).server)
  {
    assert Settled(Final(w, []), 0);
    run := OneExchange(w, [], 0, ackSent, handed);
    OnlyDropped(Final(w, run).client, Final(w, run).server);
  }

  // ---------------------------------------------------------------- the window is as wide as it can be

  /** With everything acknowledged, a request 256 back is taken for the next one and delivered again. */
  lemma WindowIsTight(w: World, f: Frame, now: nat)
    requires UpInv(w) && w.server.slot.active && Clear(w.client) && InStep(w.client, w.server)
    requires f in w.client.wire && |w.client.issued| - f.n == 256
    ensures var stale := Moved(w, Take(f, now, true, true));
            && stale.server.delivered == w.server.delivered + [w.server.delivered[f.n]]
            && !InStep(stale.client, stale.server)
  {
    ResidueBack(|w.server.fates|);
  }

  /** An acknowledgement 256 requests back is taken for the one awaited, accepted or not. */
  lemma AckWindowIsTight(w: World, a: Ack)
    requires UpInv(w) && w.client.session.out.pending
    requires a in w.server.acks && |w.client.issued| - a.n == 257
    ensures var end := Moved(w, TakeAck(a));
            && end.client.session.state == Connected
            && (|w.server.fates| < |w.client.issued| ==> !Synced(end.client, end.server))
  {
    ResidueBack(|w.client.issued| - 1);
  }

  lemma {:induction false} LongRun(w: World, n: nat) returns (run: seq<Move>)
    requires Linked(w)
    ensures Legal(w, run) && Timely(Up, w, run) && Settled(Final(w, run), n)
    ensures forall i :: 0 <= i < |Final(w, run).server.fates| ==> Final(w, run).server.fates[i]
  {
    if n == 0 {
      return [];
    }
    run := LongRun(w, n - 1);
    run := OneExchange(w, run, n - 1, true, true);
  }

  /**
  Without the window the promise fails: from any tunnel there is a run, in time and with nothing dropped,
  after which a repeat of the first request, 256 requests later, would be delivered a second time.
  */
  lemma StaleRepeatIsDelivered(w: World, now: nat) returns (run: seq<Move>, f: Frame)
    requires Linked(w)
    ensures Legal(w, run) && Timely(Up, w, run) && f in Final(w, run).client.wire && f.n == 0
    ensures InStep(Final(w, run).client, Final(w, run).server)
    ensures var stale := Moved(Final(w, run), Take(f, now, true, true)); !InStep(stale.client, stale.server)
  {
    run := LongRun(w, 256);
    var end := Final(w, run);
    NothingLostMeansInStep(end.client, end.server);
    f := Frame(0, 0, end.client.issued[0]);
    assert Frame(0, 0 % 256, end.client.issued[0]) in end.client.wire;
    WindowIsTight(end, f, now);
  }
}
