/**
The channel as a single thread sees it: `basic_channel` and `channel<T>` in one class, with
the ring in an array and the operations in the source's order of loads and stores.

`pushed` and `destroyed` record every element ever published and destroyed; `history` records
the occupancy after each publication and the watermarks in force.
*/
module Channel {
  import opened Bits
  import opened RingArithmetic
  import opened Backpressure
  import opened ChannelProtocol
  import opened Results

  datatype PushSlot = PushSlot(index: nat, occupancy: nat, low: nat, high: nat)

  datatype PopSlot = PopSlot(index: nat, head: nat)

  const DEFAULT_LOW: nat := 256
  const DEFAULT_HIGH: nat := 512

  lemma PrefixGrows<T>(elems: seq<T>, n: nat)
    requires n < |elems|
    ensures elems[..n + 1] == elems[..n] + [elems[n]]
  {
  }

  class Channel<T> {
    const capacity: nat
    var low: nat
    var high: nat
    var throttled: bool
    var head: nat
    var tail: nat
    const storage: array<Cell<T>>

    ghost var pushed: seq<T>
    ghost var destroyed: seq<T>
    ghost var history: seq<Observation>

    /** The ring indices are those of the element counts. */
    ghost predicate Indices()
      reads this
    {
      && RingSize(capacity)
      && 0 < capacity <= HALF_WORD
      && storage.Length == capacity
      && head == Wrap(|pushed|, capacity)
      && tail == Wrap(|destroyed|, capacity)
      && |destroyed| <= |pushed| < |destroyed| + capacity
      && destroyed == pushed[..|destroyed|]
      && low <= high && 1 <= high <= capacity - 1
    }

    ghost function Count(): nat
      reads this
      requires |destroyed| <= |pushed|
    {
      |pushed| - |destroyed|
    }

    /** The flag is where the reference automaton is after the occupancies so far, the last being this one. */
    ghost predicate FlagFollowsHysteresis()
      reads this
      requires |destroyed| <= |pushed|
    {
      && history != []
      && history[|history| - 1] == Observation(Count(), low, high)
      && throttled == Hysteresis(history)
    }

    ghost predicate Valid()
      reads this, storage
    {
      && Indices()
      && FlagFollowsHysteresis()
      && CellsMatch(storage[..], pushed, |destroyed|)
    }

    /** The elements queued, oldest first. */
    ghost function Contents(): seq<T>
      reads this, storage
      requires Valid()
    {
      pushed[|destroyed|..]
    }

    ghost predicate Sendable()
      reads this
      requires |destroyed| <= |pushed|
    {
      !throttled && Count() < capacity - 1
    }

    /**
    The smallest ring of at least `minCapacity` slots, empty, with the default watermarks. Above 2^63 the
    rounding wraps to zero and the object is no channel: it has no slot, and believes it has 2^64 - 1.
    */
    constructor (minCapacity: nat)
      requires minCapacity < WORD
      ensures fresh(storage) && pushed == destroyed == [] && (Valid() <==> minCapacity <= HALF_WORD)
      ensures minCapacity <= HALF_WORD ==>
                && Contents() == [] && minCapacity <= capacity && 2 <= capacity
                && (forall j: nat :: minCapacity <= Pow2(j) && 2 <= Pow2(j) ==> capacity <= Pow2(j))
                && high == ClampHigh(DEFAULT_HIGH, capacity - 1) && low == ClampLow(DEFAULT_LOW, high)
      ensures minCapacity > HALF_WORD ==>
                && capacity == storage.Length == 0
                && high == ClampHigh(DEFAULT_HIGH, WORD - 1) && low == ClampLow(DEFAULT_LOW, high)
    {
      ghost var k := NextPowerOfTwoIsLeast(minCapacity);
      capacity := NextPowerOfTwo(minCapacity);
      low, high, throttled, head, tail := 0, 1, false, 0, 0;
      pushed, destroyed, history := [], [], [];
      storage := new Cell<T>[NextPowerOfTwo(minCapacity)](_ => Dead);
      new;
      if capacity == 0 {
        high := ClampHigh(DEFAULT_HIGH, WORD - 1);
        low := ClampLow(DEFAULT_LOW, high);
      } else {
        RingSizeBounds(capacity);
        SetBackpressure(DEFAULT_LOW, DEFAULT_HIGH);
      }
    }

    method Occupancy() returns (n: nat)
      requires Indices()
      ensures n == Count()
    {
      MaskedDistanceIsDifference(|pushed|, |destroyed|, capacity);
      n := MaskedDistance(head, tail, capacity);
    }

    method Empty() returns (empty: bool)
      requires Indices()
      ensures empty <==> Count() == 0
    {
      WrapDistance(|pushed|, |destroyed|, capacity);
      empty := tail == head;
    }

    /** Without credits a push still succeeds in one case: both watermarks sit at the occupancy and the ring has room. */
    method ProducerCredits() returns (credits: nat)
      requires Valid()
      ensures credits == if Count() >= high then 0 else high - Count()
      ensures credits == 0 ==> (Sendable() <==> low == high == Count() < capacity - 1)
    {
      HysteresisAgrees(history);
      var occ := Occupancy();
      credits := if occ >= high then 0 else high - occ;
    }

    /** True exactly when a push would succeed. */
    method CanSend() returns (can: bool)
      requires Valid()
      ensures can <==> Sendable()
    {
      HysteresisAgrees(history);
      var occ := Occupancy();
      var isThrottled := ComputeThrottled(occ, low, high, throttled);
      can := !isThrottled && occ < capacity - 1;
    }

    method SetBackpressure(lowRequest: nat, highRequest: nat)
      requires Indices()
      modifies this`low, this`high, this`throttled, this`history
      ensures Indices()
      ensures high == ClampHigh(highRequest, capacity - 1) && low == ClampLow(lowRequest, high)
      ensures throttled == ComputeThrottled(Count(), low, high, old(throttled))
      ensures history == old(history) + [Observation(Count(), low, high)]
      ensures old(throttled) == Hysteresis(old(history)) ==> FlagFollowsHysteresis()
    {
      ClampsFit(lowRequest, highRequest, capacity - 1);
      high := ClampHigh(highRequest, capacity - 1);
      low := ClampLow(lowRequest, high);
      assert Indices();
      var occ := Occupancy();
      HysteresisExtend(history, Observation(occ, low, high));
      throttled := ComputeThrottled(occ, low, high, throttled);
      history := history + [Observation(occ, low, high)];
    }

    /** Reserves the next write slot, first putting right a flag that disagrees with the occupancy. */
    method AcquirePushSlot() returns (ok: bool, slot: PushSlot)
      requires Indices()
      modifies this`throttled
      ensures throttled == if Count() == capacity - 1 then old(throttled)
                           else ComputeThrottled(Count(), low, high, old(throttled))
      ensures ok <==> Count() < capacity - 1 && !throttled
      ensures ok ==> slot == PushSlot(head, Count(), low, high)
    {
      slot := PushSlot(0, 0, 0, 0);
      FullTest(|pushed|, |destroyed|, capacity);
      if MaskedNext(head, capacity) == tail {
        return false, slot;
      }
      MaskedDistanceIsDifference(|pushed|, |destroyed|, capacity);
      var occ := MaskedDistance(head, tail, capacity);
      var current := throttled;
      var before := ComputeThrottled(occ, low, high, current);
      if before != current {
        throttled := before;
      }
      if before {
        return false, slot;
      }
      return true, PushSlot(head, occ, low, high);
    }

    method PublishPush(slot: PushSlot, ghost v: T)
      requires Indices() && Count() < capacity - 1 && !throttled
      requires slot == PushSlot(head, Count(), low, high)
      modifies this`head, this`throttled, this`pushed, this`history
      ensures Indices()
      ensures pushed == old(pushed) + [v]
      ensures throttled == ComputeThrottled(Count(), low, high, false)
      ensures history == old(history) + [Observation(Count(), low, high)]
      ensures old(throttled) == Hysteresis(old(history)) ==> FlagFollowsHysteresis()
    {
      MaskedNextIsWrap(|pushed|, capacity);
      HysteresisExtend(history, Observation(slot.occupancy + 1, low, high));
      assert (pushed + [v])[..|destroyed|] == pushed[..|destroyed|];
      head := MaskedNext(slot.index, capacity);
      pushed := pushed + [v];
      history := history + [Observation(slot.occupancy + 1, low, high)];
      var after := ComputeThrottled(slot.occupancy + 1, slot.low, slot.high, false);
      if after {
        throttled := true;
      }
    }

    method AcquirePopSlot() returns (ok: bool, slot: PopSlot)
      requires Indices()
      ensures ok <==> Count() > 0
      ensures ok ==> slot == PopSlot(tail, head)
    {
      WrapDistance(|pushed|, |destroyed|, capacity);
      if tail == head {
        return false, PopSlot(0, 0);
      }
      return true, PopSlot(tail, head);
    }

    method PublishPop(slot: PopSlot)
      requires Indices() && Count() > 0
      requires slot == PopSlot(tail, head)
      requires FlagFollowsHysteresis()
      modifies this`tail, this`throttled, this`destroyed, this`history
      ensures Indices()
      ensures destroyed == old(destroyed) + [pushed[|old(destroyed)|]]
      ensures throttled == if Count() <= low then false else old(throttled)
      ensures history == old(history) + [Observation(Count(), low, high)]
      ensures FlagFollowsHysteresis()
    {
      AfterPop(|pushed|, |destroyed|, capacity);
      HysteresisAfterPop(history);
      PrefixGrows(pushed, |destroyed|);
      var nextTail := MaskedNext(slot.index, capacity);
      var occAfterPop := MaskedDistance(slot.head, nextTail, capacity);
      tail := nextTail;
      history := history + [Observation(Count() - 1, low, high)];
      destroyed := destroyed + [pushed[|destroyed|]];
      if occAfterPop <= low && throttled {
        throttled := false;
      }
    }

    /** Enqueues exactly when sendable; a refused push changes nothing, the flag included. */
    method TryPush(v: T) returns (ok: bool)
      requires Valid()
      modifies this, storage
      ensures Valid()
      ensures ok <==> old(Sendable())
      ensures ok ==> Contents() == old(Contents()) + [v] && pushed == old(pushed) + [v] && destroyed == old(destroyed)
      ensures !ok ==> unchanged(this) && unchanged(storage)
      ensures low == old(low) && high == old(high)
      ensures ok ==> throttled == ComputeThrottled(Count(), low, high, false)
    {
      HysteresisAgrees(history);
      var slot: PushSlot;
      ok, slot := AcquirePushSlot();
      if ok {
        ConstructCell(storage[..], pushed, |destroyed|, v);
        assert storage[slot.index] == Dead;
        storage[slot.index] := Alive(v);
        assert storage[..] == old(storage[..])[slot.index := Alive(v)];
        PublishPush(slot, v);
      }
    }

    /** Dequeues the oldest element, destroying its cell before the slot is handed back. */
    method TryPop() returns (r: Option<T>)
      requires Valid()
      modifies this, storage
      ensures Valid()
      ensures r.None? <==> old(Contents()) == []
      ensures r.Some? ==> r.value == old(Contents())[0] && Contents() == old(Contents())[1..]
      ensures r.Some? ==> destroyed == old(destroyed) + [r.value]
      ensures r.None? ==> unchanged(this) && unchanged(storage)
      ensures pushed == old(pushed) && low == old(low) && high == old(high)
      ensures throttled == if r.Some? && Count() <= low then false else old(throttled)
    {
      var ok, slot := AcquirePopSlot();
      if !ok {
        return None;
      }
      DestroyCell(storage[..], pushed, |destroyed|);
      var cell := storage[slot.index];
      r := Some(cell.value);
      storage[slot.index] := Dead;
      assert storage[..] == old(storage[..])[slot.index := Dead];
      PublishPop(slot);
    }

    /** The destructor's drain: afterwards every element ever pushed has been destroyed once, in order, and no cell is alive. */
    method Close()
      requires Valid()
      modifies this, storage
      ensures Valid() && Contents() == []
      ensures pushed == old(pushed) && destroyed == pushed
      ensures forall j :: 0 <= j < capacity ==> storage[j] == Dead
    {
      var ok, slot := AcquirePopSlot();
      while ok
        invariant Valid() && pushed == old(pushed)
        invariant ok <==> Count() > 0
        invariant ok ==> slot == PopSlot(tail, head)
        decreases Count()
      {
        ghost var cells := storage[..];
        DestroyCell(cells, pushed, |destroyed|);
        assert storage[slot.index].Alive?;
        storage[slot.index] := Dead;
        assert storage[..] == cells[slot.index := Dead];
        PublishPop(slot);
        ok, slot := AcquirePopSlot();
      }
      forall j | 0 <= j < capacity ensures storage[j] == Dead {
        var i := LapHits(|pushed|, j, capacity);
        assert storage[..][Wrap(i, capacity)] == Dead;
      }
    }
  }
}
