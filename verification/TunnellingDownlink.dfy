/**
What the server sends to the client. The server numbers each request, sends it once and neither waits nor
resends, and the client refuses what is out of turn. So the client accepts the first request that reaches it
and after that exactly the successors, by eight-bit number, of the last one it accepted: one datagram lost or
overtaken, and it accepts nothing more until the numbers come round.
*/
module TunnellingDownlink {

  import opened Results
  import opened TunnellingSession
  import opened TunnellingServer
  import opened TunnellingLink

  // ---------------------------------------------------------------- the invariant

  /** An open channel's next number, and the frames, agree with what the server issued. */
  predicate Numbered(s: ServerEnd) {
    && (s.slot.active ==> s.slot.sequence == |s.issued| % 256)
    && (forall f :: f in s.wire ==>
          f.n < |s.issued| && f.sequence == f.n % 256 && f.packet == s.issued[f.n] && f.packet != [])
  }

  function LastOf(accepted: seq<Hearing>): Option<nat> {
    if accepted == [] then None else Some(accepted[|accepted| - 1].n)
  }

  /** The session follows the numbering of the last request it accepted; delivered is what was accepted and kept. */
  predicate Followed(c: ClientEnd, issued: seq<Packet>) {
    && (c.session.inc.valid <==> c.accepted != [])
    && (c.accepted != [] ==> c.session.inc.last == LastOf(c.accepted).value % 256)
    && (forall i :: 0 <= i < |c.accepted| ==> c.accepted[i].n < |issued|)
    && c.delivered == Kept(issued, c.accepted)
  }

  /** The accepted requests that were kept, in the order accepted. */
  function Kept(issued: seq<Packet>, accepted: seq<Hearing>): seq<Delivery>
    requires forall i :: 0 <= i < |accepted| ==> accepted[i].n < |issued|
  {
    if accepted == [] then []
    else
      var k := |accepted| - 1;
      Kept(issued, accepted[..k]) + if accepted[k].kept then [Delivery(accepted[k].n, issued[accepted[k].n])] else []
  }

  predicate DownInv(w: World) {
    Tunnel(w) && Numbered(w.server) && Followed(w.client, w.server.issued)
  }

  lemma {:induction false} KeptIgnoresLater(issued: seq<Packet>, packet: Packet, accepted: seq<Hearing>)
    requires forall i :: 0 <= i < |accepted| ==> accepted[i].n < |issued|
    ensures Kept(issued + [packet], accepted) == Kept(issued, accepted)
    decreases |accepted|
  {
    if accepted != [] {
      KeptIgnoresLater(issued, packet, accepted[..|accepted| - 1]);
    }
  }

  // ---------------------------------------------------------------- which request is accepted

  /** `n` has the number that follows that of `last`, or is the first. */
  predicate Due(last: Option<nat>, n: nat) {
    last == None || n % 256 == (last.value + 1) % 256
  }

  /** A connected client accepts exactly a request that is due, and takes for a repeat exactly one numbered as the last. */
  lemma AcceptsExactlyTheDue(w: World, f: Frame)
    requires DownInv(w) && f in w.server.wire
    ensures Accepts(w, f) <==> w.client.session.state == Connected && Due(LastOf(w.client.accepted), f.n)
    ensures Duplicate(w.client.session, w.channel, f.sequence) <==>
            && w.client.session.state == Connected && w.client.accepted != []
            && f.n % 256 == LastOf(w.client.accepted).value % 256
  {
    if w.client.accepted != [] {
      NextResidue(LastOf(w.client.accepted).value + 1);
    }
  }

  /** What a request that reaches the client does to it. */
  lemma HearingKeeps(w: World, m: Move)
    requires Tunnel(w) && (m.Receive? || m.Overhear?) && CanMove(w, m)
    ensures var f, c, d := m.frame, w.client, Moved(w, m).client;
            var taken := Accepts(w, f);
            && d.session.inc == (if taken then Incoming(true, f.sequence, (f.sequence + 1) % 256) else c.session.inc)
            && d.accepted == c.accepted + (if taken then [Hearing(f.n, Delivers(m))] else [])
            && d.delivered == c.delivered + (if taken && Delivers(m) then [Delivery(f.n, f.packet)] else [])
  {
    IndicationKeeps(w, m.frame, m.now);
  }

  lemma HearingInv(w: World, m: Move)
    requires DownInv(w) && (m.Receive? || m.Overhear?) && CanMove(w, m)
    ensures DownInv(Moved(w, m))
  {
    TunnelStep(w, m);
    HearingKeeps(w, m);
    if Accepts(w, m.frame) {
      AcceptedInv(w.server.issued, w.client, m.frame, Delivers(m), Moved(w, m).client);
    } else {
      assert Moved(w, m).client.accepted == w.client.accepted && Moved(w, m).client.delivered == w.client.delivered;
    }
  }

  /** A client that has accepted one more request. */
  lemma AcceptedInv(issued: seq<Packet>, c: ClientEnd, f: Frame, kept: bool, d: ClientEnd)
    requires Followed(c, issued) && f.n < |issued| && f.sequence == f.n % 256 && f.packet == issued[f.n]
    requires d.session.inc.valid && d.session.inc.last == f.sequence
    requires d.accepted == c.accepted + [Hearing(f.n, kept)]
    requires d.delivered == c.delivered + if kept then [Delivery(f.n, f.packet)] else []
    ensures Followed(d, issued)
  {
    assert d.accepted[..|d.accepted| - 1] == c.accepted;
  }

  lemma PushInv(w: World, m: Move)
    requires DownInv(w) && m.Push? && CanMove(w, m)
    ensures DownInv(Moved(w, m))
  {
    NextResidue(|w.server.issued| + 1);
    KeptIgnoresLater(w.server.issued, m.packet, w.client.accepted);
  }

  lemma MoveInv(w: World, m: Move)
    requires DownInv(w) && CanMove(w, m)
    ensures DownInv(Moved(w, m))
  {
    TunnelStep(w, m);
    match m
    case Receive(_, _, _, _) => HearingInv(w, m);
    case Overhear(_, _) => HearingInv(w, m);
    case Housekeep(e) => HousekeepingKeeps(w.client.session, e);
    case Push(_, _) => PushInv(w, m);
    case _ =>
  }

  lemma {:induction false} RunKeepsInv(w: World, run: seq<Move>)
    requires DownInv(w) && Legal(w, run)
    ensures DownInv(Final(w, run))
    decreases |run|
  {
    if run != [] {
      MoveInv(w, run[0]);
      RunKeepsInv(Moved(w, run[0]), run[1..]);
    }
  }

  // ---------------------------------------------------------------- over every run

  /** The request a move brings to a connected client. */
  function Heard(w: World, m: Move): seq<Hearing> {
    if (m.Receive? || m.Overhear?) && w.client.session.state == Connected then [Hearing(m.frame.n, Delivers(m))] else []
  }

  /** The requests that reach the client while it is connected, in the order they do. */
  function HeardIn(w: World, run: seq<Move>): seq<Hearing>
    requires Legal(w, run)
    decreases |run|
  {
    if run == [] then [] else Heard(w, run[0]) + HeardIn(Moved(w, run[0]), run[1..])
  }

  /** The first, and then each that follows the last by number. */
  function Following(last: Option<nat>, heard: seq<Hearing>): seq<Hearing>
    decreases |heard|
  {
    if heard == [] then []
    else if Due(last, heard[0].n) then [heard[0]] + Following(Some(heard[0].n), heard[1..])
    else Following(last, heard[1..])
  }

  /** A move makes the client accept what it hears, if that is due. */
  lemma AcceptedMove(w: World, m: Move)
    requires DownInv(w) && CanMove(w, m)
    ensures Moved(w, m).client.accepted == w.client.accepted + Following(LastOf(w.client.accepted), Heard(w, m))
  {
    if m.Receive? || m.Overhear? {
      HearingKeeps(w, m);
      AcceptsExactlyTheDue(w, m.frame);
    }
  }

  lemma FollowingOne(last: Option<nat>, h: Hearing, rest: seq<Hearing>)
    ensures Following(last, [h]) == if Due(last, h.n) then [h] else []
    ensures Following(last, [h] + rest) == if Due(last, h.n) then [h] + Following(Some(h.n), rest) else Following(last, rest)
  {
    assert ([h] + rest)[0] == h && ([h] + rest)[1..] == rest;
    assert [h][1..] == [];
  }

  /** What follows can be told one arrival at a time. */
  lemma FollowingSplits(accepted: seq<Hearing>, first: seq<Hearing>, rest: seq<Hearing>)
    requires |first| <= 1
    ensures var after := accepted + Following(LastOf(accepted), first);
            accepted + Following(LastOf(accepted), first + rest) == after + Following(LastOf(after), rest)
  {
    var last := LastOf(accepted);
    if first == [] {
      assert first + rest == rest;
      assert accepted + Following(last, first) == accepted;
    } else {
      var h := first[0];
      assert first == [h];
      FollowingOne(last, h, rest);
      if Due(last, h.n) {
        assert LastOf(accepted + [h]) == Some(h.n);
        assert accepted + ([h] + Following(Some(h.n), rest)) == (accepted + [h]) + Following(Some(h.n), rest);
      } else {
        assert accepted + [] == accepted;
      }
    }
  }

  lemma {:induction false} AcceptedFollow(w: World, run: seq<Move>)
    requires DownInv(w) && Legal(w, run)
    ensures Final(w, run).client.accepted ==
            w.client.accepted + Following(LastOf(w.client.accepted), HeardIn(w, run))
    decreases |run|
  {
    if run != [] {
      var next := Moved(w, run[0]);
      MoveInv(w, run[0]);
      AcceptedMove(w, run[0]);
      AcceptedFollow(next, run[1..]);
      FollowingSplits(w.client.accepted, Heard(w, run[0]), HeardIn(next, run[1..]));
    }
  }

  /**
  Over every run, whatever the network does: the client accepts exactly the first request that reaches it and
  then each that follows the last accepted one by number, and delivers exactly those of them that came while
  it waited for telegrams, could be acknowledged and were opened.
  */
  lemma AcceptedExactlyTheFollowing(w: World, run: seq<Move>)
    requires Linked(w) && Legal(w, run)
    ensures var end, accepted := Final(w, run), Following(None, HeardIn(w, run));
            && end.client.accepted == accepted
            && (forall i :: 0 <= i < |accepted| ==> accepted[i].n < |end.server.issued|)
            && end.client.delivered == Kept(end.server.issued, accepted)
  {
    RunKeepsInv(w, run);
    AcceptedFromTheStart(w, run);
  }

  lemma AcceptedFromTheStart(w: World, run: seq<Move>)
    requires Linked(w) && Legal(w, run)
    ensures Final(w, run).client.accepted == Following(None, HeardIn(w, run))
  {
    AcceptedFollow(w, run);
    assert [] + Following(None, HeardIn(w, run)) == Following(None, HeardIn(w, run));
  }

  // ---------------------------------------------------------------- in time: in order and at most once

  /** Each accepted request comes after the one before it: right after, or a whole turn of the numbers later. */
  predicate Rising(accepted: seq<Hearing>) {
    forall i :: 0 < i < |accepted| ==> Later(accepted[i - 1].n, accepted[i].n)
  }

  predicate Later(last: nat, n: nat) {
    n > last && (n - last - 1) % 256 == 0
  }

  lemma ResidueOfDifference(i: int, j: int)
    ensures i % 256 == j % 256 <==> (i - j) % 256 == 0
  {
  }

  /** In time, a request is accepted exactly if it is the first, the successor of the last, or whole turns after that. */
  lemma AcceptsExactlyTheLater(w: World, m: Move)
    requires DownInv(w) && (m.Receive? || m.Overhear?) && CanMove(w, m) && TimelyMove(Down, w, m)
    ensures Accepts(w, m.frame) <==>
            && w.client.session.state == Connected
            && (w.client.accepted == [] || Later(LastOf(w.client.accepted).value, m.frame.n))
  {
    AcceptsExactlyTheDue(w, m.frame);
    if w.client.accepted != [] {
      var last := LastOf(w.client.accepted).value;
      ResidueOfDifference(m.frame.n, last + 1);
      if m.frame.n <= last {
        OtherResidue(m.frame.n, last + 1);
      }
    }
  }

  lemma RisingMove(w: World, m: Move)
    requires DownInv(w) && CanMove(w, m) && TimelyMove(Down, w, m) && Rising(w.client.accepted)
    ensures Rising(Moved(w, m).client.accepted)
  {
    if m.Receive? || m.Overhear? {
      HearingKeeps(w, m);
      AcceptsExactlyTheLater(w, m);
    }
  }

  lemma {:induction false} AcceptedRise(w: World, run: seq<Move>)
    requires DownInv(w) && Legal(w, run) && Timely(Down, w, run) && Rising(w.client.accepted)
    ensures Rising(Final(w, run).client.accepted)
    decreases |run|
  {
    if run != [] {
      MoveInv(w, run[0]);
      RisingMove(w, run[0]);
      AcceptedRise(Moved(w, run[0]), run[1..]);
    }
  }

  lemma {:induction false} RisingOrders(accepted: seq<Hearing>, i: nat, j: nat)
    requires Rising(accepted) && i < j < |accepted|
    ensures accepted[i].n < accepted[j].n
    decreases j
  {
    assert Later(accepted[j - 1].n, accepted[j].n);
    if i < j - 1 {
      RisingOrders(accepted, i, j - 1);
    }
  }

  /** So over every run in time, no request is accepted twice, and they are accepted, and delivered, in order. */
  lemma InOrderAtMostOnce(w: World, run: seq<Move>, i: nat, j: nat)
    requires Linked(w) && Legal(w, run) && Timely(Down, w, run)
    ensures i < j < |Final(w, run).client.accepted| ==>
              Final(w, run).client.accepted[i].n < Final(w, run).client.accepted[j].n
    ensures i < j < |Final(w, run).client.delivered| ==>
              Final(w, run).client.delivered[i].n < Final(w, run).client.delivered[j].n
  {
    var end := Final(w, run);
    RunKeepsInv(w, run);
    AcceptedRise(w, run);
    if i < j < |end.client.accepted| {
      RisingOrders(end.client.accepted, i, j);
    }
    KeptRise(end.server.issued, end.client.accepted);
  }

  /** What is kept rises with what was accepted, and is no more. */
  lemma {:induction false} KeptRise(issued: seq<Packet>, accepted: seq<Hearing>)
    requires (forall i :: 0 <= i < |accepted| ==> accepted[i].n < |issued|) && Rising(accepted)
    ensures var kept := Kept(issued, accepted);
            && |kept| <= |accepted|
            && (forall i, j :: 0 <= i < j < |kept| ==> kept[i].n < kept[j].n)
            && (forall i :: 0 <= i < |kept| ==> kept[i].n <= accepted[|accepted| - 1].n)
    decreases |accepted|
  {
    if accepted != [] {
      var k := |accepted| - 1;
      KeptRise(issued, accepted[..k]);
      assert k > 0 ==> Later(accepted[k - 1].n, accepted[k].n);
    }
  }

  // ---------------------------------------------------------------- all of them, exactly when

  /** Everything the server issued was delivered, once and in order. */
  predicate AllDelivered(w: World) {
    && |w.client.delivered| == |w.server.issued|
    && forall i :: 0 <= i < |w.server.issued| ==> w.client.delivered[i] == Delivery(i, w.server.issued[i])
  }

  /**
  From the `due`-th request on, each of the `n` reaches the client in its turn, the first time in a way that
  delivers it. The very first arrival has to be the first request; later ones may be repeated and overtake,
  but none numbered as the one due may reach the client in its place.
  */
  predicate EachInTurn(heard: seq<Hearing>, due: nat, n: nat)
    decreases |heard|
  {
    if heard == [] then due == n
    else if heard[0].n == due then due < n && heard[0].kept && EachInTurn(heard[1..], due + 1, n)
    else due > 0 && heard[0].n % 256 != due % 256 && EachInTurn(heard[1..], due, n)
  }

  /** The requests from `due` to `n`, all kept. */
  function Whole(due: nat, n: nat): seq<Hearing>
    requires due <= n
    decreases n - due
  {
    if due == n then [] else [Hearing(due, true)] + Whole(due + 1, n)
  }

  lemma {:induction false} WholeAt(due: nat, n: nat)
    requires due <= n
    ensures |Whole(due, n)| == n - due
    ensures forall i :: 0 <= i < n - due ==> Whole(due, n)[i] == Hearing(due + i, true)
    decreases n - due
  {
    if due < n {
      WholeAt(due + 1, n);
    }
  }

  lemma {:induction false} FollowingIsWholeExactlyWhen(heard: seq<Hearing>, due: nat, n: nat)
    requires due <= n
    ensures Following(if due == 0 then None else Some(due - 1), heard) == Whole(due, n) <==> EachInTurn(heard, due, n)
    decreases |heard|
  {
    var last := if due == 0 then None else Some(due - 1);
    if heard != [] {
      if Due(last, heard[0].n) {
        TakenFromWhole(heard, due, n);
        if heard[0].n == due && due < n {
          FollowingIsWholeExactlyWhen(heard[1..], due + 1, n);
        }
      } else {
        FollowingIsWholeExactlyWhen(heard[1..], due, n);
      }
    }
  }

  lemma TakenFromWhole(heard: seq<Hearing>, due: nat, n: nat)
    requires due <= n && heard != [] && Due(if due == 0 then None else Some(due - 1), heard[0].n)
    ensures Following(if due == 0 then None else Some(due - 1), heard) == Whole(due, n) <==>
            due < n && heard[0] == Hearing(due, true) && Following(Some(due), heard[1..]) == Whole(due + 1, n)
  {
    var following := Following(if due == 0 then None else Some(due - 1), heard);
    var rest := Following(Some(heard[0].n), heard[1..]);
    assert following == [heard[0]] + rest;
    assert following[1..] == rest;
    if due < n {
      assert Whole(due, n)[0] == Hearing(due, true) && Whole(due, n)[1..] == Whole(due + 1, n);
    }
  }

  /** A rising list of numbers below `n` has no more than `n`, and all of them only if it has `n`. */
  lemma {:induction false} RisingFits(accepted: seq<Hearing>, n: nat)
    requires Rising(accepted) && forall i :: 0 <= i < |accepted| ==> accepted[i].n < n
    ensures |accepted| <= n
    ensures |accepted| == n ==> forall i :: 0 <= i < n ==> accepted[i].n == i
    decreases |accepted|
  {
    if accepted != [] {
      var k := |accepted| - 1;
      var top := accepted[k].n;
      forall i | 0 <= i < k
        ensures accepted[i].n < top
      {
        RisingOrders(accepted, i, k);
      }
      RisingFits(accepted[..k], top);
    }
  }

  /** Everything accepted was delivered if all of it was kept, */
  lemma {:induction false} KeptWhole(issued: seq<Packet>, accepted: seq<Hearing>)
    requires forall i :: 0 <= i < |accepted| ==> accepted[i].n < |issued| && accepted[i].kept
    ensures |Kept(issued, accepted)| == |accepted|
    ensures forall i :: 0 <= i < |accepted| ==> Kept(issued, accepted)[i] == Delivery(accepted[i].n, issued[accepted[i].n])
    decreases |accepted|
  {
    if accepted != [] {
      KeptWhole(issued, accepted[..|accepted| - 1]);
    }
  }

  lemma {:induction false} KeptBound(issued: seq<Packet>, accepted: seq<Hearing>)
    requires forall i :: 0 <= i < |accepted| ==> accepted[i].n < |issued|
    ensures |Kept(issued, accepted)| <= |accepted|
    decreases |accepted|
  {
    if accepted != [] {
      KeptBound(issued, accepted[..|accepted| - 1]);
    }
  }

  /** and fewer if one was not. */
  lemma {:induction false} KeptLess(issued: seq<Packet>, accepted: seq<Hearing>, k: nat)
    requires forall i :: 0 <= i < |accepted| ==> accepted[i].n < |issued|
    requires k < |accepted| && !accepted[k].kept
    ensures |Kept(issued, accepted)| < |accepted|
    decreases |accepted|
  {
    var end := |accepted| - 1;
    if k < end {
      KeptLess(issued, accepted[..end], k);
    } else {
      KeptBound(issued, accepted[..end]);
    }
  }

  lemma AllDeliveredExactlyWhenWhole(w: World)
    requires DownInv(w) && Rising(w.client.accepted)
    ensures AllDelivered(w) <==> w.client.accepted == Whole(0, |w.server.issued|)
  {
    var issued, accepted := w.server.issued, w.client.accepted;
    WholeAt(0, |issued|);
    RisingFits(accepted, |issued|);
    if k :| 0 <= k < |accepted| && !accepted[k].kept {
      KeptLess(issued, accepted, k);
    } else {
      KeptWhole(issued, accepted);
      if |accepted| == |issued| {
        assert accepted == Whole(0, |issued|);
      }
    }
  }

  /**
  Over every run in time: everything the server issued is delivered, once and in order, exactly when each
  request reached the client in its turn. One that is lost, overtaken, overheard in another wait, not
  acknowledged or not opened breaks it, and nothing else does.
  */
  lemma AllDeliveredExactlyWhen(w: World, run: seq<Move>)
    requires Linked(w) && Legal(w, run) && Timely(Down, w, run)
    ensures AllDelivered(Final(w, run)) <==> EachInTurn(HeardIn(w, run), 0, |Final(w, run).server.issued|)
  {
    RunKeepsInv(w, run);
    AcceptedRise(w, run);
    AcceptedFromTheStart(w, run);
    AllDeliveredExactlyWhenWhole(Final(w, run));
    FollowingIsWholeExactlyWhen(HeardIn(w, run), 0, |Final(w, run).server.issued|);
  }

  // ---------------------------------------------------------------- after a miss

  predicate Within(heard: seq<Hearing>, from: int, to: int) {
    forall i :: 0 <= i < |heard| ==> from <= heard[i].n < to
  }

  lemma WithinJoins(a: seq<Hearing>, b: seq<Hearing>, from: int, mid: int, to: int, later: int)
    requires Within(a, from, mid) && Within(b, later, to) && from <= later && mid <= to
    ensures Within(a + b, from, to)
  {
  }

  lemma HeardMoveInTime(w: World, m: Move)
    requires DownInv(w) && CanMove(w, m) && TimelyMove(Down, w, m)
    ensures Within(Heard(w, m), |w.server.issued| - 255, |w.server.issued|)
    ensures |w.server.issued| <= |Moved(w, m).server.issued|
  {
  }

  /** What reaches the client in time was issued no more than 255 before the run and no later than its end. */
  lemma {:induction false} HeardInTime(w: World, run: seq<Move>)
    requires DownInv(w) && Legal(w, run) && Timely(Down, w, run)
    ensures |w.server.issued| <= |Final(w, run).server.issued|
    ensures Within(HeardIn(w, run), |w.server.issued| - 255, |Final(w, run).server.issued|)
    decreases |run|
  {
    if run != [] {
      var next := Moved(w, run[0]);
      MoveInv(w, run[0]);
      HeardMoveInTime(w, run[0]);
      HeardInTime(next, run[1..]);
      WithinJoins(Heard(w, run[0]), HeardIn(next, run[1..]), |w.server.issued| - 255, |w.server.issued|,
                  |Final(w, run).server.issued|, |next.server.issued| - 255);
    }
  }

  lemma {:induction false} NothingFollows(last: nat, heard: seq<Hearing>)
    requires forall i :: 0 <= i < |heard| ==> last - 254 <= heard[i].n <= last + 256 && heard[i].n != last + 1
    ensures Following(Some(last), heard) == []
    decreases |heard|
  {
    if heard != [] {
      assert last - 254 <= heard[0].n <= last + 256 && heard[0].n != last + 1;
      OtherResidue(heard[0].n, last + 1);
      NothingFollows(last, heard[1..]);
    }
  }

  /**
  A miss deafens the client. From any point of any run in time, if the request after the last accepted one does
  not reach the client, then until the server has issued 256 beyond the one missed, nothing at all is accepted
  or delivered, whatever else reaches it and however often.
  */
  lemma DeafAfterMiss(w: World, before: seq<Move>, after: seq<Move>)
    requires Linked(w) && Legal(w, before + after) && Timely(Down, w, before + after)
    requires Legal(w, before) && Legal(Final(w, before), after) && Final(w, before).client.accepted != []
    requires var last := LastOf(Final(w, before).client.accepted).value;
             && (forall i :: 0 <= i < |HeardIn(Final(w, before), after)| ==>
                   HeardIn(Final(w, before), after)[i].n != last + 1)
             && |Final(w, before + after).server.issued| <= last + 257
    ensures Final(w, before + after).client.accepted == Final(w, before).client.accepted
    ensures Final(w, before + after).client.delivered == Final(w, before).client.delivered
  {
    RunSplits(w, before, after);
    TimelySplits(Down, w, before, after);
    var mid := Final(w, before);
    var last := LastOf(mid.client.accepted).value;
    RunKeepsInv(w, before);
    RunKeepsInv(mid, after);
    HeardInTime(mid, after);
    NothingFollows(last, HeardIn(mid, after));
    AcceptedFollow(mid, after);
    IssuedGrows(mid, after);
    KeptOnlyByAccepted(mid.server.issued, Final(mid, after).server.issued, mid.client.accepted);
  }

  lemma {:induction false} IssuedGrows(w: World, run: seq<Move>)
    requires Legal(w, run)
    ensures w.server.issued <= Final(w, run).server.issued
    decreases |run|
  {
    if run != [] {
      IssuedGrows(Moved(w, run[0]), run[1..]);
    }
  }

  lemma {:induction false} KeptOnlyByAccepted(issued: seq<Packet>, more: seq<Packet>, accepted: seq<Hearing>)
    requires issued <= more && forall i :: 0 <= i < |accepted| ==> accepted[i].n < |issued|
    ensures Kept(more, accepted) == Kept(issued, accepted)
    decreases |accepted|
  {
    if accepted != [] {
      KeptOnlyByAccepted(issued, more, accepted[..|accepted| - 1]);
    }
  }

  // ---------------------------------------------------------------- within reach

  /** The tunnel is up, and the server has issued `n` requests. */
  predicate Running(w: World, n: nat) {
    DownInv(w) && w.server.slot.active && w.client.session.state == Connected && |w.server.issued| == n
  }

  /** The `n`-th request, received as it should be. */
  function Arrival(n: nat): Move {
    Receive(Frame(n, n % 256, [0]), 0, true, true)
  }

  /** One more request that is sent and received at once: accepted if it is due, and otherwise no help. */
  lemma SendAndReceive(w: World, run: seq<Move>, n: nat) returns (more: seq<Move>)
    requires Legal(w, run) && Timely(Down, w, run) && Running(Final(w, run), n)
    ensures Legal(w, more) && Timely(Down, w, more) && Running(Final(w, more), n + 1)
    ensures more == run + [Push([0], true)] + [Arrival(n)]
    ensures Final(w, more).server.issued == Final(w, run).server.issued + [[0]]
    ensures Final(w, more).server.wire == Final(w, run).server.wire + {Arrival(n).frame}
    ensures Final(w, more).client.accepted ==
            Final(w, run).client.accepted + if Due(LastOf(Final(w, run).client.accepted), n) then [Hearing(n, true)] else []
  {
    var push := Push([0], true);
    Append(Down, w, run, push);
    PushInv(Final(w, run), push);
    var sent := Final(w, run + [push]);
    assert CanMove(sent, Arrival(n));
    Append(Down, w, run + [push], Arrival(n));
    HearingInv(sent, Arrival(n));
    HearingKeeps(sent, Arrival(n));
    IndicationKeeps(sent, Arrival(n).frame, 0);
    AcceptsExactlyTheDue(sent, Arrival(n).frame);
    more := run + [push] + [Arrival(n)];
  }

  /** One more request that is sent and lost. */
  lemma SendAndLose(w: World, run: seq<Move>, n: nat)
    requires Legal(w, run) && Timely(Down, w, run) && Running(Final(w, run), n)
    ensures var more := run + [Push([0], true)];
            && Legal(w, more) && Timely(Down, w, more) && Running(Final(w, more), n + 1)
            && Final(w, more).server.issued == Final(w, run).server.issued + [[0]]
            && Final(w, more).client == Final(w, run).client
  {
    Append(Down, w, run, Push([0], true));
    PushInv(Final(w, run), Push([0], true));
  }

  /** Every request but the second is received. */
  predicate AllButSecond(run: seq<Move>, n: nat) {
    forall i: nat :: i < n && i != 1 ==> Arrival(i) in run
  }

  lemma AllButSecondGrows(run: seq<Move>, n: nat, more: seq<Move>)
    requires AllButSecond(run, n) && more == run + [Push([0], true)] + [Arrival(n)]
    ensures AllButSecond(more, n + 1)
  {
    forall i: nat | i < n + 1 && i != 1
      ensures Arrival(i) in more
    {
      if i == n {
        assert more[|run| + 1] == Arrival(n);
      } else {
        assert Arrival(i) in run;
      }
    }
  }

  /** What has been issued is all the same, and the client has accepted only the first. */
  predicate Deafened(w: World, n: nat) {
    && Running(w, n) && w.client.accepted == [Hearing(0, true)]
    && forall i :: 0 <= i < n ==> w.server.issued[i] == [0]
  }

  lemma FirstReceived(w: World) returns (run: seq<Move>)
    requires Linked(w)
    ensures Legal(w, run) && Timely(Down, w, run) && Deafened(Final(w, run), 1)
    ensures run == [Push([0], true), Arrival(0)]
  {
    assert Running(Final(w, []), 0);
    run := SendAndReceive(w, [], 0);
  }

  lemma SecondLost(w: World) returns (run: seq<Move>)
    requires Linked(w)
    ensures Legal(w, run) && Timely(Down, w, run) && Deafened(Final(w, run), 2) && AllButSecond(run, 2)
  {
    var first := FirstReceived(w);
    SendAndLose(w, first, 1);
    run := first + [Push([0], true)];
    assert run[1] == Arrival(0);
  }

  lemma {:induction false} StaysDeaf(w: World, n: nat) returns (run: seq<Move>)
    requires Linked(w) && 2 <= n <= 257
    ensures Legal(w, run) && Timely(Down, w, run) && Deafened(Final(w, run), n) && AllButSecond(run, n)
    decreases n
  {
    if n == 2 {
      run := SecondLost(w);
    } else {
      var before := StaysDeaf(w, n - 1);
      run := SendAndReceive(w, before, n - 1);
      AllButSecondGrows(before, n - 1, run);
      NotDueBeforeTurn(n - 1);
    }
  }

  /**
  One lost datagram is enough. From any tunnel there is a run in time in which the server issues up to 257
  requests, the second is lost, every other one is received at once and in order, and only the first is
  ever delivered.
  */
  lemma OneLossDeafens(w: World, n: nat) returns (run: seq<Move>)
    requires Linked(w) && 2 <= n <= 257
    ensures Legal(w, run) && Timely(Down, w, run) && Deafened(Final(w, run), n) && AllButSecond(run, n)
    ensures Final(w, run).client.delivered == [Delivery(0, [0])]
  {
    run := StaysDeaf(w, n);
    OnlyFirstKept(Final(w, run).server.issued);
  }

  lemma NotDueBeforeTurn(n: nat)
    requires 2 <= n <= 256
    ensures !Due(Some(0), n)
  {
  }

  lemma OnlyFirstKept(issued: seq<Packet>)
    requires |issued| > 0
    ensures Kept(issued, [Hearing(0, true)]) == [Delivery(0, issued[0])]
  {
    assert [Hearing(0, true)][..0] == [];
  }

  lemma TurnReached(w: World) returns (run: seq<Move>)
    requires Linked(w)
    ensures Legal(w, run) && Timely(Down, w, run) && Running(Final(w, run), 258) && AllButSecond(run, 258)
    ensures Final(w, run).client.accepted == [Hearing(0, true)] + [Hearing(257, true)]
    ensures Final(w, run).server.issued[0] == [0] && Final(w, run).server.issued[257] == [0]
  {
    var deaf := StaysDeaf(w, 257);
    run := SendAndReceive(w, deaf, 257);
    AllButSecondGrows(deaf, 257, run);
  }

  /** The request with which the numbers have come round is taken for the one missed; the 256 before it are gone. */
  lemma HearsAgainAfterTurn(w: World) returns (run: seq<Move>)
    requires Linked(w)
    ensures Legal(w, run) && Timely(Down, w, run) && Running(Final(w, run), 258) && AllButSecond(run, 258)
    ensures Final(w, run).client.delivered == [Delivery(0, [0]), Delivery(257, [0])]
  {
    run := TurnReached(w);
    assert [Hearing(0, true)] + [Hearing(257, true)] == [Hearing(0, true), Hearing(257, true)];
    KeptTwo(Final(w, run).server.issued);
  }

  lemma KeptTwo(issued: seq<Packet>)
    requires |issued| == 258
    ensures Kept(issued, [Hearing(0, true), Hearing(257, true)]) == [Delivery(0, issued[0]), Delivery(257, issued[257])]
  {
    assert [Hearing(0, true), Hearing(257, true)][..1] == [Hearing(0, true)];
    OnlyFirstKept(issued);
  }

  lemma WholeGrows(n: nat)
    ensures Whole(0, n + 1) == Whole(0, n) + [Hearing(n, true)]
    ensures Due(LastOf(Whole(0, n)), n)
  {
    WholeAt(0, n);
    WholeAt(0, n + 1);
  }

  /** The client has accepted and kept all that was issued, and the first request is still about. */
  predicate Complete(w: World, n: nat) {
    && Running(w, n) && w.client.accepted == Whole(0, n)
    && (n > 0 ==> Frame(0, 0, [0]) in w.server.wire)
  }

  lemma {:induction false} AllInTurn(w: World, n: nat) returns (run: seq<Move>)
    requires Linked(w)
    ensures Legal(w, run) && Timely(Down, w, run) && Complete(Final(w, run), n)
  {
    if n == 0 {
      return [];
    }
    var before := AllInTurn(w, n - 1);
    run := SendAndReceive(w, before, n - 1);
    WholeGrows(n - 1);
  }

  /** The window is as wide as it can be: with all accepted, a request 256 back is taken for the next and delivered. */
  lemma WindowIsTight(w: World, m: Move)
    requires DownInv(w) && w.client.session.state == Connected && Delivers(m) && CanMove(w, m)
    requires LastOf(w.client.accepted) == Some(|w.server.issued| - 1) && |w.server.issued| - m.frame.n == 256
    ensures Moved(w, m).client.delivered == w.client.delivered + [Delivery(m.frame.n, w.server.issued[m.frame.n])]
  {
    ResidueBack(|w.server.issued|);
    AcceptsExactlyTheDue(w, m.frame);
    HearingKeeps(w, m);
  }

  /** With the first of `n` requests arriving again, everything delivered before, and one more after. */
  predicate DeliveredAgain(w: World, now: nat) {
    var stale := Receive(Frame(0, 0, [0]), now, true, true);
    && AllDelivered(w) && CanMove(w, stale) && w.server.issued != []
    && Moved(w, stale).client.delivered == w.client.delivered + [Delivery(0, w.server.issued[0])]
  }

  lemma TurnOfRequests(w: World, n: nat, now: nat) returns (run: seq<Move>)
    requires Linked(w) && n == 256
    ensures Legal(w, run) && Timely(Down, w, run) && DeliveredAgain(Final(w, run), now)
  {
    run := AllInTurn(w, n);
    AcceptedRise(w, run);
    AllDeliveredExactlyWhenWhole(Final(w, run));
    WholeAt(0, n);
    WindowIsTight(Final(w, run), Receive(Frame(0, 0, [0]), now, true, true));
  }

  /**
  Without it the promise fails: from any tunnel there is a run in time that delivers everything, after which a
  repeat of the first request, 256 requests later, would be delivered a second time.
  */
  lemma StaleRequestIsDelivered(w: World, now: nat) returns (run: seq<Move>)
    requires Linked(w)
    ensures Legal(w, run) && Timely(Down, w, run) && DeliveredAgain(Final(w, run), now)
    ensures !AllDelivered(Moved(Final(w, run), Receive(Frame(0, 0, [0]), now, true, true)))
  {
    run := TurnOfRequests(w, 256, now);
  }
}
