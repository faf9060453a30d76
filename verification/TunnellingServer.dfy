/**
The tunnelling server: its table of channels, which number a request gets, and what becomes of a request
that arrives. Over a datagram transport it checks numbers and acknowledges as a client does; what it sends
itself it numbers, sends once and forgets.

A channel is known by its holder, which stands for the transport and the data endpoint it was opened from.
*/
module TunnellingServer {

  import opened Results
  import opened TunnellingSession

  datatype Slot = Slot(active: bool, sequence: Byte, inc: Incoming, holder: nat, lastActivity: nat)

  const CLOSED_SLOT := Slot(false, 0, Incoming(false, 0, 0), 0, 0)

  /** A channel as it is handed out. */
  function OpenSlot(holder: nat, now: nat): Slot {
    CLOSED_SLOT.(active := true, holder := holder, lastActivity := now)
  }

  /** What a tunnelled request is to the channel it names. */
  datatype Standing = Refused | Repeat | New

  /** `classify_indication`: `held` says that the channel is open and the request came from its holder. */
  function Classify(slot: Slot, held: bool, sequence: Byte): (Slot, Standing) {
    if !held then (slot, Refused)
    else if slot.inc.valid && sequence == slot.inc.last then (slot, Repeat)
    else if slot.inc.valid && sequence != slot.inc.next then (slot, Refused)
    else (slot.(inc := Incoming(true, sequence, (sequence + 1) % 256)), New)
  }

  /** The channel afterwards, whether the request was acknowledged, and whether it is handed up: no for a repeat. */
  datatype Served = Served(slot: Slot, acked: bool, event: Result<bool, Error>)

  /** `accept_tunnelled`: the number is taken first, so a failed acknowledgement leaves it taken. */
  function AcceptTunnelled(slot: Slot, held: bool, sequence: Byte, ackSent: bool, now: nat): Served {
    var (t, standing) := Classify(slot, held, sequence);
    if standing == Refused then Served(t, false, Err(SequenceError))
    else if !ackSent then Served(t, false, Err(ConnectionFailed))
    else Served(t.(lastActivity := now), true, Ok(standing == New))
  }

  /** The server numbers what arrives exactly as a connected client does: one rule, written twice. */
  lemma NumbersAsClient(slot: Slot, s: Session, sequence: Byte)
    requires s.state == Connected && !s.stream && s.inc == slot.inc
    ensures var (taken, standing) := Classify(slot, true, sequence);
            var (t, r) := OnIndication(s, s.channel, sequence, false);
            && taken.inc == t.inc
            && (standing == New <==> r == Done)
            && (standing == Repeat <==> Duplicate(s, s.channel, sequence))
  {
  }

  /** `claim_sequence`: the number of the next request, and the channel after it. */
  function Claim(slot: Slot): (Slot, Byte) {
    (slot.(sequence := (slot.sequence + 1) % 256), slot.sequence)
  }

  /** `poll`: the channel has been silent past the timeout, on the wrapping clock. */
  predicate Silent(slot: Slot, now: nat, timeout: nat) {
    slot.active && SignedDifference(now, slot.lastActivity) >= Signed(timeout % WORD)
  }

  datatype Refusal = NoTunnellingAddress | ConnectionInUse | NoMoreConnections

  class Server {
    const limit: Byte            // the most channels it hands out
    const firstAddress: nat      // the address that goes with channel one
    const timeout: nat
    const slots: array<Slot>

    /** Channel zero is never open, and a channel not open holds nothing over from an earlier connection. */
    ghost predicate Valid()
      reads slots
    {
      && slots.Length == 256 && !slots[0].active
      && forall i :: 0 <= i < 256 && !slots[i].active ==> slots[i] == CLOSED_SLOT
    }

    constructor (limit: Byte, firstAddress: nat, timeout: nat)
      ensures Valid() && fresh(slots)
      ensures this.limit == limit && this.firstAddress == firstAddress && this.timeout == timeout
      ensures forall i :: 0 <= i < 256 ==> !slots[i].active
    {
      this.limit, this.firstAddress, this.timeout := limit, firstAddress, timeout;
      slots := new Slot[256](_ => CLOSED_SLOT);
    }

    /** The channel an asked-for address goes with. */
    function SlotOf(address: nat): int {
      address - firstAddress + 1
    }

    /** Asked for an address, the channel of that address or a refusal; otherwise the lowest free channel. */
    method Allocate(requested: Option<nat>) returns (r: Result<Byte, Refusal>)
      requires Valid()
      ensures r.Ok? ==> 0 < r.value <= limit && !slots[r.value].active
      ensures requested.Some? ==>
                && (r == Err(NoTunnellingAddress) <==> !(1 <= SlotOf(requested.value) <= limit))
                && (r == Err(ConnectionInUse) <==>
                      1 <= SlotOf(requested.value) <= limit && slots[SlotOf(requested.value)].active)
                && (r.Ok? ==> r.value == SlotOf(requested.value)) && r != Err(NoMoreConnections)
      ensures requested.None? ==>
                && (r.Ok? ==> forall i :: 0 < i < r.value ==> slots[i].active)
                && (r.Err? ==> r == Err(NoMoreConnections) && forall i :: 0 < i <= limit ==> slots[i].active)
    {
      if requested.Some? {
        var slot := SlotOf(requested.value);
        if slot < 1 || slot > limit {
          return Err(NoTunnellingAddress);
        }
        return if slots[slot].active then Err(ConnectionInUse) else Ok(slot);
      }
      var i := 1;
      while i <= limit
        invariant 1 <= i <= limit + 1
        invariant forall j :: 0 < j < i ==> slots[j].active
      {
        if !slots[i].active {
          return Ok(i);
        }
        i := i + 1;
      }
      return Err(NoMoreConnections);
    }

    /** An offered channel starts from nothing, whatever it carried before, and no other channel is touched. */
    method Offer(requested: Option<nat>, holder: nat, now: nat) returns (r: Result<Byte, Refusal>)
      requires Valid()
      modifies slots
      ensures Valid()
      ensures r.Ok? ==> 0 < r.value <= limit && !old(slots[r.value].active)
                        && slots[..] == old(slots[..])[r.value := OpenSlot(holder, now)]
      ensures r.Err? ==> slots[..] == old(slots[..])
    {
      r := Allocate(requested);
      if r.Ok? {
        slots[r.value] := OpenSlot(holder, now);
      }
    }

    predicate Holds(channel: Byte, from: nat)
      reads slots
      requires slots.Length == 256
    {
      channel != 0 && slots[channel].active && slots[channel].holder == from
    }

    /**
    A request that arrives is handed up at most once: only if its sender holds the channel, its number is the
    one due, and its acknowledgement went out. A request that is refused, or repeated, moves no numbering.
    */
    method TakeTunnelled(channel: Byte, from: nat, sequence: Byte, ackSent: bool, now: nat)
      returns (acked: bool, event: Result<bool, Error>)
      requires Valid()
      modifies slots
      ensures Valid()
      ensures var was := old(slots[channel]);
              var served := AcceptTunnelled(was, old(Holds(channel, from)), sequence, ackSent, now);
              slots[..] == old(slots[..])[channel := served.slot] && acked == served.acked && event == served.event
      ensures event == Ok(true) ==>
                && old(Holds(channel, from)) && ackSent
                && (old(slots[channel].inc.valid) ==>
                      sequence == old(slots[channel].inc.next) && sequence != old(slots[channel].inc.last))
      ensures event != Ok(true) && slots[channel].inc != old(slots[channel].inc) ==> old(Holds(channel, from)) && !ackSent
    {
      var held := Holds(channel, from);
      var (slot, standing) := Classify(slots[channel], held, sequence);
      slots[channel] := slot;
      if standing == Refused {
        return false, Err(SequenceError);
      }
      if !ackSent {
        return false, Err(ConnectionFailed);
      }
      slots[channel] := slots[channel].(lastActivity := now);
      return true, Ok(standing == New);
    }

    /** Every request of a channel gets the next number, sent or not, and no number is ever taken back. */
    method ClaimSequence(channel: Byte) returns (r: Option<Byte>)
      requires Valid()
      modifies slots
      ensures Valid()
      ensures r.Some? <==> old(slots[channel].active)
      ensures r.Some? ==> r.value == old(slots[channel].sequence)
                          && slots[channel].sequence == (r.value + 1) % 256
                          && slots[..] == old(slots[..])[channel := slots[channel]]
                          && slots[channel] == old(slots[channel]).(sequence := slots[channel].sequence)
      ensures r.None? ==> slots[..] == old(slots[..])
    {
      if channel == 0 || !slots[channel].active {
        return None;
      }
      var (slot, number) := Claim(slots[channel]);
      slots[channel] := slot;
      return Some(number);
    }

    /** Releases one channel and no other. */
    method Disconnect(channel: Byte) returns (r: Outcome)
      requires Valid()
      modifies slots
      ensures Valid()
      ensures r == Done <==> old(slots[channel].active)
      ensures slots[..] == old(slots[..])[channel := CLOSED_SLOT]
    {
      if channel == 0 || !slots[channel].active {
        return Failed(InvalidConfiguration);
      }
      slots[channel] := CLOSED_SLOT;
      return Done;
    }

    /** Releases exactly the channels silent past the timeout, and none when there is no timeout. */
    method Poll(now: nat)
      requires Valid()
      modifies slots
      ensures Valid()
      ensures forall i :: 0 <= i < 256 ==>
                slots[i] == if timeout != 0 && old(Silent(slots[i], now, timeout)) then CLOSED_SLOT else old(slots[i])
    {
      if timeout == 0 {
        return;
      }
      var i := 1;
      while i < 256
        invariant 1 <= i <= 256 && Valid()
        invariant forall j :: 0 <= j < 256 ==>
                    slots[j] == if j < i && old(Silent(slots[j], now, timeout)) then CLOSED_SLOT else old(slots[j])
      {
        if Silent(slots[i], now, timeout) {
          slots[i] := CLOSED_SLOT;
        }
        i := i + 1;
      }
    }
  }
}
