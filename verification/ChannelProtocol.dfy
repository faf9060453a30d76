/**
The SPSC channel under every interleaving of its two threads, one step per atomic access.

The producer runs `try_push` and `wait_until_can_send`, the consumer runs `try_pop`. A load
of the other side's index may return any value that side has stored since the last one this
thread saw (stale, but never older than before); a load of the throttle flag may return
anything. The watermarks are fixed for the run.
*/
module ChannelProtocol {
  import opened RingArithmetic
  import opened Backpressure

  datatype Config = Config(cap: nat, low: nat, high: nat)

  /** A ring slot: raw storage, or storage holding a live element. */
  datatype Cell<T> = Dead | Alive(value: T)

  /** The shared memory. The producer writes `head`, the consumer `tail`, both `throttled`. */
  datatype Ring<T> = Ring(head: nat, tail: nat, throttled: bool, cells: seq<Cell<T>>)

  /** `try_push`; each constructor names the access performed next. */
  datatype Push<T> =
    | LoadTail(v: T)
    | LoadFlag(v: T, occ: nat)
    | RepairFlag(v: T, occ: nat, before: bool)
    | Construct(v: T, occ: nat)
    | StoreHead(v: T, occ: nat)
    | RaiseFlag

  /** `wait_until_can_send`; `snapshot` is the tail value it loaded. */
  datatype Wait =
    | LoadSnapshot
    | LoadThrottle(snapshot: nat, occ: nat)
    | CompareFlag
    | CompareTail(snapshot: nat)
    | BlockedOnFlag
    | BlockedOnTail(snapshot: nat)

  datatype Producer<T> = Idle | Pushing(push: Push<T>) | Waiting(wait: Wait)

  /** `try_pop`; `seen` is the head index the `pop_slot` recorded. */
  datatype Consumer =
    | Resting
    | LoadHead
    | Take(seen: nat)
    | StoreTail(seen: nat)
    | NotifyTail(seen: nat)
    | LoadClear
    | Exchange
    | NotifyFlag

  /** History: no step's control flow depends on it. */
  datatype Log<T> = Log(
    pushed: seq<T>,     // every element published, in order
    popped: seq<T>,     // every element moved out and destroyed, in order
    freed: nat,         // number of tail stores
    seenTail: nat,      // number of tail stores behind the last tail value the producer loaded
    seenHead: nat,      // number of head stores behind the last head value the consumer loaded
    granted: bool,      // wait_until_can_send has returned and no push has ended since
    fault: bool)        // a live cell was constructed over, or a dead one destroyed

  datatype State<T> = State(cfg: Config, ring: Ring<T>, log: Log<T>, producer: Producer<T>, consumer: Consumer)

  /** One step of either thread. The loads of shared variables carry the value they observe. */
  datatype Step<T> =
    | StartPush(v: T)
    | StartWait
    | ProducerLoadTail(count: nat)
    | ProducerLoadFlag(flag: bool)
    | ProducerStep
    | SpuriousWake
    | StartPop
    | ConsumerLoadHead(count: nat)
    | ConsumerLoadFlag(flag: bool)
    | ConsumerStep

  function Start<T>(cfg: Config): State<T> {
    State(cfg, Ring(0, 0, false, seq(cfg.cap, _ => Dead)), Log([], [], 0, 0, 0, false, false), Idle, Resting)
  }

  // ---------------------------------------------------------------- steps

  /** Index arithmetic is evaluated on indices inside a ring of a possible size. */
  predicate Indexed(cfg: Config, ring: Ring) {
    0 < cfg.cap <= HALF_WORD && |ring.cells| == cfg.cap && ring.head < cfg.cap && ring.tail < cfg.cap
  }

  predicate Blocked(p: Producer) {
    p.Waiting? && (p.wait.BlockedOnFlag? || p.wait.BlockedOnTail?)
  }

  predicate AtTailLoad(p: Producer) {
    (p.Pushing? && p.push.LoadTail?) || (p.Waiting? && p.wait.LoadSnapshot?)
  }

  predicate AtFlagLoad(p: Producer) {
    (p.Pushing? && p.push.LoadFlag?) || (p.Waiting? && p.wait.LoadThrottle?)
  }

  predicate Enabled(s: State, step: Step) {
    && Indexed(s.cfg, s.ring)
    && match step
       case StartPush(_) => s.producer.Idle?
       case StartWait => s.producer.Idle?
       case ProducerLoadTail(count) => AtTailLoad(s.producer) && s.log.seenTail <= count <= s.log.freed
       case ProducerLoadFlag(_) => AtFlagLoad(s.producer)
       case ProducerStep =>
         !s.producer.Idle? && !Blocked(s.producer) && !AtTailLoad(s.producer) && !AtFlagLoad(s.producer)
       case SpuriousWake => Blocked(s.producer)
       case StartPop => s.consumer.Resting?
       case ConsumerLoadHead(count) => s.consumer.LoadHead? && s.log.seenHead <= count <= |s.log.pushed|
       case ConsumerLoadFlag(_) => s.consumer.LoadClear?
       case ConsumerStep =>
         && !s.consumer.Resting? && !s.consumer.LoadHead? && !s.consumer.LoadClear?
         && (s.consumer.NotifyTail? ==> s.consumer.seen < s.cfg.cap)
  }

  /** `acquire_push_slot` once the flag agrees with the occupancy. */
  function Decide<T>(v: T, occ: nat, throttledBefore: bool): Producer<T> {
    if throttledBefore then Idle else Pushing(Construct(v, occ))
  }

  /** The producer has loaded `tail`. */
  function AfterTail<T>(cfg: Config, ring: Ring<T>, p: Producer<T>, tail: nat): Producer<T>
    requires Indexed(cfg, ring) && AtTailLoad(p) && tail < cfg.cap
  {
    var occ := MaskedDistance(ring.head, tail, cfg.cap);
    if p.Waiting? then Waiting(LoadThrottle(tail, occ))
    else if MaskedNext(ring.head, cfg.cap) == tail then Idle
    else Pushing(LoadFlag(p.push.v, occ))
  }

  /** The producer has loaded `throttled_`. */
  function AfterFlag<T>(cfg: Config, p: Producer<T>, flag: bool): Producer<T>
    requires AtFlagLoad(p) && cfg.cap > 0
  {
    if p.Pushing? then
      var LoadFlag(v, occ) := p.push;
      var before := ComputeThrottled(occ, cfg.low, cfg.high, flag);
      if before != flag then Pushing(RepairFlag(v, occ, before)) else Decide(v, occ, before)
    else
      var LoadThrottle(snapshot, occ) := p.wait;
      var throttled := ComputeThrottled(occ, cfg.low, cfg.high, flag);
      if !throttled && occ < cfg.cap - 1 then Idle
      else if throttled then Waiting(CompareFlag)
      else Waiting(CompareTail(snapshot))
  }

  /** The producer performs the store or comparison its state names. */
  function AfterProducer<T>(cfg: Config, ring: Ring<T>, p: Producer<T>): Producer<T>
    requires !p.Idle? && !Blocked(p) && !AtTailLoad(p) && !AtFlagLoad(p)
  {
    if p.Pushing? then
      match p.push
      case RepairFlag(v, occ, before) => Decide(v, occ, before)
      case Construct(v, occ) => Pushing(StoreHead(v, occ))
      case StoreHead(_, occ) => if ComputeThrottled(occ + 1, cfg.low, cfg.high, false) then Pushing(RaiseFlag) else Idle
      case RaiseFlag => Idle
    else
      match p.wait
      case CompareFlag => Waiting(if ring.throttled then BlockedOnFlag else LoadSnapshot)
      case CompareTail(snapshot) => Waiting(if ring.tail == snapshot then BlockedOnTail(snapshot) else LoadSnapshot)
  }

  function ProducerStores<T>(cfg: Config, ring: Ring<T>, p: Producer<T>): Ring<T>
    requires Indexed(cfg, ring)
  {
    if !p.Pushing? then ring
    else
      match p.push
      case RepairFlag(_, _, before) => ring.(throttled := before)
      case Construct(v, _) => ring.(cells := ring.cells[ring.head := Alive(v)])
      case StoreHead(_, _) => ring.(head := MaskedNext(ring.head, cfg.cap))
      case RaiseFlag => ring.(throttled := true)
      case _ => ring
  }

  function ProducerLogs<T>(cfg: Config, ring: Ring<T>, log: Log<T>, p: Producer<T>): Log<T>
    requires Indexed(cfg, ring)
  {
    if !p.Pushing? then log
    else
      match p.push
      case RepairFlag(_, _, before) => log.(granted := log.granted && !before)
      case Construct(v, _) => log.(fault := log.fault || ring.cells[ring.head].Alive?)
      case StoreHead(v, _) => log.(pushed := log.pushed + [v], granted := false)
      case _ => log
  }

  /** A notification, or a spurious wake-up, sends a blocked thread back to its comparison. */
  function Woken(w: Wait): Wait {
    match w
    case BlockedOnFlag => CompareFlag
    case BlockedOnTail(snapshot) => CompareTail(snapshot)
    case _ => w
  }

  function WakeFrom<T>(c: Consumer, p: Producer<T>): Producer<T> {
    if p.Waiting? && ((c.NotifyTail? && p.wait.BlockedOnTail?) || (c.NotifyFlag? && p.wait.BlockedOnFlag?))
    then Waiting(Woken(p.wait))
    else p
  }

  function AfterConsumer<T>(cfg: Config, ring: Ring<T>, c: Consumer): Consumer
    requires Indexed(cfg, ring) && !c.Resting? && !c.LoadHead? && !c.LoadClear?
    requires c.NotifyTail? ==> c.seen < cfg.cap
  {
    match c
    case Take(seen) => StoreTail(seen)
    case StoreTail(seen) => NotifyTail(seen)
    case NotifyTail(seen) => if MaskedDistance(seen, ring.tail, cfg.cap) <= cfg.low then LoadClear else Resting
    case Exchange => if ring.throttled then NotifyFlag else Resting
    case NotifyFlag => Resting
  }

  function ConsumerStores<T>(cfg: Config, ring: Ring<T>, c: Consumer): Ring<T>
    requires Indexed(cfg, ring)
  {
    match c
    case Take(_) => ring.(cells := ring.cells[ring.tail := Dead])
    case StoreTail(_) => ring.(tail := MaskedNext(ring.tail, cfg.cap))
    case Exchange => ring.(throttled := false)
    case _ => ring
  }

  function ConsumerLogs<T>(cfg: Config, ring: Ring<T>, log: Log<T>, c: Consumer): Log<T>
    requires Indexed(cfg, ring)
  {
    match c
    case Take(_) =>
      if ring.cells[ring.tail].Alive? then log.(popped := log.popped + [ring.cells[ring.tail].value])
      else log.(fault := true)
    case StoreTail(_) => log.(freed := log.freed + 1)
    case _ => log
  }

  function Apply<T>(s: State<T>, step: Step<T>): State<T>
    requires Enabled(s, step)
  {
    match step
    case StartPush(v) => s.(producer := Pushing(LoadTail(v)))
    case StartWait => s.(producer := Waiting(LoadSnapshot), log := s.log.(granted := false))
    case ProducerLoadTail(count) =>
      var p := AfterTail(s.cfg, s.ring, s.producer, Wrap(count, s.cfg.cap));
      s.(producer := p, log := s.log.(seenTail := count, granted := s.log.granted && !p.Idle?))
    case ProducerLoadFlag(flag) =>
      var p := AfterFlag(s.cfg, s.producer, flag);
      s.(producer := p, log := s.log.(granted := if p.Idle? then s.producer.Waiting? else s.log.granted))
    case ProducerStep =>
      State(s.cfg,
            ProducerStores(s.cfg, s.ring, s.producer),
            ProducerLogs(s.cfg, s.ring, s.log, s.producer),
            AfterProducer(s.cfg, s.ring, s.producer),
            s.consumer)
    case SpuriousWake => s.(producer := Waiting(Woken(s.producer.wait)))
    case StartPop => s.(consumer := LoadHead)
    case ConsumerLoadHead(count) =>
      var head := Wrap(count, s.cfg.cap);
      s.(consumer := if s.ring.tail == head then Resting else Take(head), log := s.log.(seenHead := count))
    case ConsumerLoadFlag(flag) => s.(consumer := if flag then Exchange else Resting)
    case ConsumerStep =>
      State(s.cfg,
            ConsumerStores(s.cfg, s.ring, s.consumer),
            ConsumerLogs(s.cfg, s.ring, s.log, s.consumer),
            WakeFrom(s.consumer, s.producer),
            AfterConsumer(s.cfg, s.ring, s.consumer))
  }

  // ---------------------------------------------------------------- invariant

  ghost predicate Configured(cfg: Config) {
    RingSize(cfg.cap) && cfg.low <= cfg.high && 1 <= cfg.high <= cfg.cap - 1
  }

  /** The largest occupancy the ring and the watermarks allow. */
  function OccupancyBound(cfg: Config): nat
    requires cfg.cap > 0
  {
    Min(cfg.cap - 1, if cfg.high > cfg.low then cfg.high else cfg.low + 1)
  }

  /** Number of elements moved out of their cells. */
  function Taken(log: Log, c: Consumer): nat {
    if c.StoreTail? then log.freed + 1 else log.freed
  }

  /** Every element constructed into a cell, published or not. */
  function Constructed<T>(log: Log<T>, p: Producer<T>): seq<T> {
    if p.Pushing? && p.push.StoreHead? then log.pushed + [p.push.v] else log.pushed
  }

  /** The indices are those of the counts, and each side's view of the other lags behind it. */
  ghost predicate Indices(cfg: Config, ring: Ring, log: Log) {
    && Configured(cfg)
    && Indexed(cfg, ring)
    && ring.head == Wrap(|log.pushed|, cfg.cap)
    && ring.tail == Wrap(log.freed, cfg.cap)
    && log.seenTail <= log.freed <= log.seenHead <= |log.pushed| <= log.seenTail + OccupancyBound(cfg)
  }

  /** A push past its tail load: the occupancy it observed leaves room. */
  ghost predicate PushRoom(cfg: Config, log: Log, occ: nat) {
    occ == |log.pushed| - log.seenTail && occ + 1 < cfg.cap
  }

  ghost predicate MayPush(cfg: Config, occ: nat) {
    occ <= cfg.low || occ < cfg.high
  }

  ghost predicate ProducerLocal(cfg: Config, log: Log, p: Producer)
    requires cfg.cap > 0
  {
    match p
    case Idle => true
    case Pushing(push) => (
      match push
      case LoadTail(_) => true
      case LoadFlag(_, occ) => PushRoom(cfg, log, occ)
      case RepairFlag(_, occ, before) => PushRoom(cfg, log, occ) && (before || MayPush(cfg, occ))
      case Construct(_, occ) => PushRoom(cfg, log, occ) && MayPush(cfg, occ)
      case StoreHead(_, occ) => PushRoom(cfg, log, occ) && MayPush(cfg, occ)
      case RaiseFlag => true)
    case Waiting(wait) => (
      match wait
      case LoadThrottle(snapshot, occ) =>
        snapshot == Wrap(log.seenTail, cfg.cap) && occ == |log.pushed| - log.seenTail
      case CompareTail(snapshot) => snapshot == Wrap(log.seenTail, cfg.cap)
      case BlockedOnTail(snapshot) => snapshot == Wrap(log.seenTail, cfg.cap)
      case _ => true)
  }

  ghost predicate ConsumerLocal(cfg: Config, log: Log, c: Consumer)
    requires cfg.cap > 0
  {
    match c
    case Take(seen) => seen == Wrap(log.seenHead, cfg.cap) && log.freed < log.seenHead
    case StoreTail(seen) => seen == Wrap(log.seenHead, cfg.cap) && log.freed < log.seenHead
    case NotifyTail(seen) => seen == Wrap(log.seenHead, cfg.cap)
    case _ => true
  }

  /**
  Exactly the cells from the `taken`-th to the last constructed element are alive, each
  holding its own element; the rest of the lap is dead.
  */
  ghost predicate CellsMatch<T>(cells: seq<Cell<T>>, elems: seq<T>, taken: nat) {
    && |cells| > 0
    && taken <= |elems| <= taken + |cells|
    && (forall i: nat :: taken <= i < |elems| ==> cells[Wrap(i, |cells|)] == Alive(elems[i]))
    && (forall i: nat :: |elems| <= i < taken + |cells| ==> cells[Wrap(i, |cells|)] == Dead)
  }

  ghost predicate Ordered(log: Log, c: Consumer) {
    Taken(log, c) <= |log.pushed| && log.popped == log.pushed[..Taken(log, c)]
  }

  ghost predicate Inv(s: State) {
    && Indices(s.cfg, s.ring, s.log)
    && ProducerLocal(s.cfg, s.log, s.producer)
    && ConsumerLocal(s.cfg, s.log, s.consumer)
    && Ordered(s.log, s.consumer)
    && CellsMatch(s.ring.cells, Constructed(s.log, s.producer), Taken(s.log, s.consumer))
    && !s.log.fault
  }

  // ---------------------------------------------------------------- preservation

  lemma StartInv<T>(cfg: Config)
    requires Configured(cfg)
    ensures Inv(Start<T>(cfg))
  {
    RingSizeBounds(cfg.cap);
  }

  lemma LoadTailInv<T>(s: State<T>, count: nat)
    requires Inv(s) && Enabled(s, ProducerLoadTail(count))
    ensures Inv(Apply(s, ProducerLoadTail(count)))
  {
    MaskedDistanceIsDifference(|s.log.pushed|, count, s.cfg.cap);
    FullTest(|s.log.pushed|, count, s.cfg.cap);
  }

  lemma LoadFlagInv<T>(s: State<T>, flag: bool)
    requires Inv(s) && Enabled(s, ProducerLoadFlag(flag))
    ensures Inv(Apply(s, ProducerLoadFlag(flag)))
  {
  }

  lemma LoadHeadInv<T>(s: State<T>, count: nat)
    requires Inv(s) && Enabled(s, ConsumerLoadHead(count))
    ensures Inv(Apply(s, ConsumerLoadHead(count)))
  {
    WrapDistance(count, s.log.freed, s.cfg.cap);
  }

  /** Constructing the next element fills a dead cell and disturbs no other. */
  lemma ConstructCell<T>(cells: seq<Cell<T>>, elems: seq<T>, taken: nat, v: T)
    requires CellsMatch(cells, elems, taken) && |elems| < taken + |cells|
    ensures cells[Wrap(|elems|, |cells|)] == Dead
    ensures CellsMatch(cells[Wrap(|elems|, |cells|) := Alive(v)], elems + [v], taken)
  {
    var n, p := |cells|, |elems|;
    var cells' := cells[Wrap(p, n) := Alive(v)];
    forall i: nat | taken <= i < p ensures cells'[Wrap(i, n)] == Alive(elems[i]) {
      WrapDistance(p, i, n);
    }
    forall i: nat | p + 1 <= i < taken + n ensures cells'[Wrap(i, n)] == Dead {
      WrapDistance(i, p, n);
    }
  }

  /** Destroying the oldest element empties a live cell and disturbs no other. */
  lemma DestroyCell<T>(cells: seq<Cell<T>>, elems: seq<T>, taken: nat)
    requires CellsMatch(cells, elems, taken) && taken < |elems|
    ensures cells[Wrap(taken, |cells|)] == Alive(elems[taken])
    ensures CellsMatch(cells[Wrap(taken, |cells|) := Dead], elems, taken + 1)
  {
    var n := |cells|;
    var cells' := cells[Wrap(taken, n) := Dead];
    forall i: nat | taken + 1 <= i < |elems| ensures cells'[Wrap(i, n)] == Alive(elems[i]) {
      WrapDistance(i, taken, n);
    }
    forall i: nat | |elems| <= i < taken + 1 + n ensures cells'[Wrap(i, n)] == Dead {
      if i == taken + n {
        assert Wrap(taken + n, n) == Wrap(taken, n);
      }
    }
  }

  lemma ConstructInv<T>(s: State<T>)
    requires Inv(s) && Enabled(s, ProducerStep) && s.producer.Pushing? && s.producer.push.Construct?
    ensures Inv(Apply(s, ProducerStep))
  {
    ConstructCell(s.ring.cells, s.log.pushed, Taken(s.log, s.consumer), s.producer.push.v);
  }

  /** An observed occupancy that admits a push leaves the true one within the bound after it. */
  lemma PushStaysBounded(cfg: Config, occ: nat)
    requires occ + 1 < cfg.cap && MayPush(cfg, occ)
    ensures occ + 1 <= OccupancyBound(cfg)
  {
  }

  lemma StoreHeadInv<T>(s: State<T>)
    requires Inv(s) && Enabled(s, ProducerStep) && s.producer.Pushing? && s.producer.push.StoreHead?
    ensures Inv(Apply(s, ProducerStep))
  {
    StoreHeadIndices(s);
    StoreHeadOrder(s);
    StoreHeadRest(s);
  }

  lemma StoreHeadRest<T>(s: State<T>)
    requires Inv(s) && Enabled(s, ProducerStep) && s.producer.Pushing? && s.producer.push.StoreHead?
    ensures var t := Apply(s, ProducerStep);
            && t.cfg == s.cfg && t.ring.cells == s.ring.cells && t.log.fault == s.log.fault
            && Taken(t.log, t.consumer) == Taken(s.log, s.consumer)
            && ProducerLocal(t.cfg, t.log, t.producer) && ConsumerLocal(t.cfg, t.log, t.consumer)
  {
  }

  lemma StoreHeadIndices<T>(s: State<T>)
    requires Inv(s) && Enabled(s, ProducerStep) && s.producer.Pushing? && s.producer.push.StoreHead?
    ensures var t := Apply(s, ProducerStep); Indices(t.cfg, t.ring, t.log)
  {
    MaskedNextIsWrap(|s.log.pushed|, s.cfg.cap);
    PushStaysBounded(s.cfg, s.producer.push.occ);
  }

  lemma StoreHeadOrder<T>(s: State<T>)
    requires Inv(s) && Enabled(s, ProducerStep) && s.producer.Pushing? && s.producer.push.StoreHead?
    ensures var t := Apply(s, ProducerStep);
            Ordered(t.log, t.consumer) && Constructed(t.log, t.producer) == Constructed(s.log, s.producer)
  {
    var taken := Taken(s.log, s.consumer);
    assert (s.log.pushed + [s.producer.push.v])[..taken] == s.log.pushed[..taken];
  }

  lemma ProducerInv<T>(s: State<T>)
    requires Inv(s) && Enabled(s, ProducerStep)
    ensures Inv(Apply(s, ProducerStep))
  {
    if s.producer.Pushing? && s.producer.push.Construct? {
      ConstructInv(s);
    } else if s.producer.Pushing? && s.producer.push.StoreHead? {
      StoreHeadInv(s);
    }
  }

  lemma TakeInv<T>(s: State<T>)
    requires Inv(s) && Enabled(s, ConsumerStep) && s.consumer.Take?
    ensures Inv(Apply(s, ConsumerStep))
  {
    var t := Apply(s, ConsumerStep);
    DestroyCell(s.ring.cells, Constructed(s.log, s.producer), s.log.freed);
    assert t.producer == s.producer && t.log.pushed == s.log.pushed && t.log.freed == s.log.freed;
  }

  lemma StoreTailInv<T>(s: State<T>)
    requires Inv(s) && Enabled(s, ConsumerStep) && s.consumer.StoreTail?
    ensures Inv(Apply(s, ConsumerStep))
  {
    MaskedNextIsWrap(s.log.freed, s.cfg.cap);
  }

  lemma ConsumerInv<T>(s: State<T>)
    requires Inv(s) && Enabled(s, ConsumerStep)
    ensures Inv(Apply(s, ConsumerStep))
  {
    match s.consumer
    case Take(_) => TakeInv(s);
    case StoreTail(_) => StoreTailInv(s);
    case _ =>
  }

  lemma StepInv<T>(s: State<T>, step: Step<T>)
    requires Inv(s) && Enabled(s, step)
    ensures Inv(Apply(s, step))
  {
    match step
    case ProducerLoadTail(count) => LoadTailInv(s, count);
    case ProducerLoadFlag(flag) => LoadFlagInv(s, flag);
    case ProducerStep => ProducerInv(s);
    case ConsumerLoadHead(count) => LoadHeadInv(s, count);
    case ConsumerStep => ConsumerInv(s);
    case _ =>
  }

  // ---------------------------------------------------------------- runs

  /** `steps` can be taken one after the other from `s`. */
  ghost predicate Legal<T>(s: State<T>, steps: seq<Step<T>>)
    decreases |steps|
  {
    steps == [] || (Enabled(s, steps[0]) && Legal(Apply(s, steps[0]), steps[1..]))
  }

  ghost function Final<T>(s: State<T>, steps: seq<Step<T>>): State<T>
    requires Legal(s, steps)
    decreases |steps|
  {
    if steps == [] then s else Final(Apply(s, steps[0]), steps[1..])
  }

  lemma {:induction false} RunInv<T>(s: State<T>, steps: seq<Step<T>>)
    requires Inv(s) && Legal(s, steps)
    ensures Inv(Final(s, steps))
    decreases |steps|
  {
    if steps != [] {
      StepInv(s, steps[0]);
      RunInv(Apply(s, steps[0]), steps[1..]);
    }
  }

  // ---------------------------------------------------------------- refinement of a queue

  /** What a step does to the queue as its users see it. */
  datatype Event<T> = Internal | Enqueue(v: T) | Dequeue(v: T)

  function EventOf<T>(s: State<T>, step: Step<T>): Event<T>
    requires Enabled(s, step)
  {
    if step.ProducerStep? && s.producer.Pushing? && s.producer.push.StoreHead? then
      Enqueue(s.producer.push.v)
    else if step.ConsumerStep? && s.consumer.Take? && s.ring.cells[s.ring.tail].Alive? then
      Dequeue(s.ring.cells[s.ring.tail].value)
    else
      Internal
  }

  ghost function History<T>(s: State<T>, steps: seq<Step<T>>): seq<Event<T>>
    requires Legal(s, steps)
    decreases |steps|
  {
    if steps == [] then [] else [EventOf(s, steps[0])] + History(Apply(s, steps[0]), steps[1..])
  }

  /** The specification: a first-in first-out queue of at most `bound` elements. */
  ghost predicate FifoAccepts<T>(queue: seq<T>, events: seq<Event<T>>, bound: nat)
    decreases |events|
  {
    events == [] ||
    match events[0]
    case Internal => FifoAccepts(queue, events[1..], bound)
    case Enqueue(v) => |queue| < bound && FifoAccepts(queue + [v], events[1..], bound)
    case Dequeue(v) => queue != [] && queue[0] == v && FifoAccepts(queue[1..], events[1..], bound)
  }

  /** The abstract queue of a state: what has been published and not yet taken. */
  function Queue<T>(s: State<T>): seq<T>
    requires Taken(s.log, s.consumer) <= |s.log.pushed|
  {
    s.log.pushed[Taken(s.log, s.consumer)..]
  }

  /** Publishing appends to the queue, which had room. */
  lemma StoreHeadEnqueues<T>(s: State<T>)
    requires Inv(s) && s.producer.Pushing? && s.producer.push.StoreHead? && Enabled(s, ProducerStep)
    ensures Inv(Apply(s, ProducerStep))
    ensures |Queue(s)| < OccupancyBound(s.cfg)
    ensures Queue(Apply(s, ProducerStep)) == Queue(s) + [s.producer.push.v]
  {
    StepInv(s, ProducerStep);
    PushStaysBounded(s.cfg, s.producer.push.occ);
    var t := Taken(s.log, s.consumer);
    assert (s.log.pushed + [s.producer.push.v])[t..] == s.log.pushed[t..] + [s.producer.push.v];
  }

  /** Taking removes the front of the queue. */
  lemma TakeDequeues<T>(s: State<T>)
    requires Inv(s) && s.consumer.Take? && Enabled(s, ConsumerStep)
    ensures Inv(Apply(s, ConsumerStep))
    ensures s.ring.cells[s.ring.tail].Alive? && Queue(s) != []
    ensures s.ring.cells[s.ring.tail].value == Queue(s)[0]
    ensures Queue(Apply(s, ConsumerStep)) == Queue(s)[1..]
  {
    StepInv(s, ConsumerStep);
    DestroyCell(s.ring.cells, Constructed(s.log, s.producer), s.log.freed);
    var t := s.log.freed;
    assert s.log.pushed[t..][1..] == s.log.pushed[t + 1..];
  }

  lemma OtherStepsKeepQueue<T>(s: State<T>, step: Step<T>)
    requires Inv(s) && Enabled(s, step)
    requires !(step.ProducerStep? && s.producer.Pushing? && s.producer.push.StoreHead?)
    requires !(step.ConsumerStep? && s.consumer.Take?)
    ensures Inv(Apply(s, step))
    ensures Queue(Apply(s, step)) == Queue(s)
  {
    StepInv(s, step);
    QueueUntouched(s, step);
  }

  lemma QueueUntouched<T>(s: State<T>, step: Step<T>)
    requires Enabled(s, step)
    requires !(step.ProducerStep? && s.producer.Pushing? && s.producer.push.StoreHead?)
    requires !(step.ConsumerStep? && s.consumer.Take?)
    ensures Apply(s, step).log.pushed == s.log.pushed
    ensures Taken(Apply(s, step).log, Apply(s, step).consumer) == Taken(s.log, s.consumer)
  {
  }

  /** Each step is one queue operation on the abstract queue, or leaves it alone. */
  lemma StepRefinesQueue<T>(s: State<T>, step: Step<T>)
    requires Inv(s) && Enabled(s, step)
    ensures Inv(Apply(s, step))
    ensures match EventOf(s, step)
            case Internal => Queue(Apply(s, step)) == Queue(s)
            case Enqueue(v) => |Queue(s)| < OccupancyBound(s.cfg) && Queue(Apply(s, step)) == Queue(s) + [v]
            case Dequeue(v) => Queue(s) != [] && v == Queue(s)[0] && Queue(Apply(s, step)) == Queue(s)[1..]
  {
    if step.ProducerStep? && s.producer.Pushing? && s.producer.push.StoreHead? {
      StoreHeadEnqueues(s);
    } else if step.ConsumerStep? && s.consumer.Take? {
      TakeDequeues(s);
    } else {
      OtherStepsKeepQueue(s, step);
    }
  }

  lemma {:induction false} RunRefinesQueue<T>(s: State<T>, steps: seq<Step<T>>)
    requires Inv(s) && Legal(s, steps)
    ensures FifoAccepts(Queue(s), History(s, steps), OccupancyBound(s.cfg))
    decreases |steps|
  {
    if steps != [] {
      var next := Apply(s, steps[0]);
      StepRefinesQueue(s, steps[0]);
      RunRefinesQueue(next, steps[1..]);
      assert History(s, steps)[1..] == History(next, steps[1..]);
    }
  }

  /** Every interleaving, from the start, is a run of the bounded FIFO queue. */
  lemma InterleavingsAreFifo<T>(cfg: Config, steps: seq<Step<T>>)
    requires Configured(cfg) && Legal(Start<T>(cfg), steps)
    ensures cfg.cap > 0
    ensures FifoAccepts([], History(Start<T>(cfg), steps), OccupancyBound(cfg))
  {
    StartInv<T>(cfg);
    RunRefinesQueue(Start<T>(cfg), steps);
  }

  /** The values popped so far are a prefix of the values pushed, and the cells hold exactly the rest in order. */
  lemma PoppedIsPrefix<T>(cfg: Config, steps: seq<Step<T>>)
    requires Configured(cfg) && Legal(Start<T>(cfg), steps)
    ensures var s := Final(Start<T>(cfg), steps);
            && s.log.popped <= s.log.pushed
            && Taken(s.log, s.consumer) == |s.log.popped|
            && s.cfg.cap == |s.ring.cells| > 0
            && forall i: nat :: |s.log.popped| <= i < |s.log.pushed| ==>
                 s.ring.cells[Wrap(i, s.cfg.cap)] == Alive(s.log.pushed[i])
  {
    StartInv<T>(cfg);
    RunInv(Start<T>(cfg), steps);
  }

  // ---------------------------------------------------------------- slots and occupancy

  /** The push has reserved its slot: it will construct into `head`, or has and not yet published it. */
  ghost predicate PushReserved(p: Producer) {
    p.Pushing? && (p.push.Construct? || p.push.StoreHead?)
  }

  ghost predicate PopReserved(c: Consumer) {
    c.Take? || c.StoreTail?
  }

  /**
  The slot reserved for a push is never the one reserved for a pop; a push constructs only
  into a dead cell and a pop destroys only a live one, holding the oldest element.
  */
  lemma SlotsAreExclusive<T>(s: State<T>)
    requires Inv(s)
    ensures PushReserved(s.producer) && PopReserved(s.consumer) ==> s.ring.head != s.ring.tail
    ensures s.producer.Pushing? && s.producer.push.Construct? ==> s.ring.cells[s.ring.head] == Dead
    ensures s.consumer.Take? ==>
              s.log.freed < |s.log.pushed| && s.ring.cells[s.ring.tail] == Alive(s.log.pushed[s.log.freed])
    ensures !s.log.fault
  {
    WrapDistance(|s.log.pushed|, s.log.freed, s.cfg.cap);
    if s.producer.Pushing? && s.producer.push.Construct? {
      ConstructCell(s.ring.cells, s.log.pushed, Taken(s.log, s.consumer), s.producer.push.v);
    }
    if s.consumer.Take? {
      DestroyCell(s.ring.cells, Constructed(s.log, s.producer), s.log.freed);
    }
  }

  /** Once both threads are at rest and the ring is drained, every element pushed was destroyed, once, in order. */
  lemma DrainedRingIsDead<T>(s: State<T>)
    requires Inv(s) && s.producer.Idle? && s.consumer.Resting? && s.ring.head == s.ring.tail
    ensures s.log.popped == s.log.pushed
    ensures forall j :: 0 <= j < s.cfg.cap ==> s.ring.cells[j] == Dead
  {
    var n, p := s.cfg.cap, |s.log.pushed|;
    WrapDistance(p, s.log.freed, n);
    forall j | 0 <= j < n ensures s.ring.cells[j] == Dead {
      var i := LapHits(p, j, n);
    }
  }

  /** Every ring index is hit once in any lap. */
  lemma {:induction false} LapHits(p: nat, j: nat, n: nat) returns (i: nat)
    requires j < n
    ensures p <= i < p + n && Wrap(i, n) == j
    decreases p
  {
    if p < n {
      i := if p <= j then j else j + n;
      assert Wrap(i, n) == j;
    } else {
      var k := LapHits(p - n, j, n);
      i := k + n;
    }
  }

  /** The occupancy a running operation has computed from the indices it loaded, if any. */
  function ProducerObserved(p: Producer): int {
    match p
    case Idle => -1
    case Pushing(push) => (match push
      case LoadFlag(_, occ) => occ
      case RepairFlag(_, occ, _) => occ
      case Construct(_, occ) => occ
      case StoreHead(_, occ) => occ
      case _ => -1)
    case Waiting(wait) => if wait.LoadThrottle? then wait.occ else -1
  }

  function Occupancy(s: State): int {
    |s.log.pushed| - s.log.freed
  }

  /**
  In every reachable state the true occupancy is within the bound, the producer never
  under-counts it and the consumer, deciding whether to clear the flag, never over-counts it.
  */
  lemma ObservationsAreConservative<T>(s: State<T>)
    requires Inv(s)
    ensures 0 <= Occupancy(s) <= OccupancyBound(s.cfg)
    ensures ProducerObserved(s.producer) >= 0 ==> ProducerObserved(s.producer) >= Occupancy(s)
    ensures s.consumer.NotifyTail? ==>
              && s.consumer.seen < s.cfg.cap
              && MaskedDistance(s.consumer.seen, s.ring.tail, s.cfg.cap) <= Occupancy(s)
  {
    if s.consumer.NotifyTail? {
      MaskedDistanceIsDifference(s.log.seenHead, s.log.freed, s.cfg.cap);
    }
  }
}
