/**
The blocking path of the channel: no wake-up of `wait_until_can_send` is lost, and a return
from it is a promise that the next push succeeds.

These results need more of the memory than the safety results do: loads of the throttle flag,
and the tail load inside `wait_until_can_send`, observe the latest store (`Current`). The
index loads of `try_push` and `try_pop` may still be stale.
*/
module ChannelWakeup {
  import opened RingArithmetic
  import opened Backpressure
  import opened ChannelProtocol

  /** The loads that must not be stale are not. */
  predicate Current(s: State, step: Step) {
    match step
    case ProducerLoadTail(count) => s.producer.Waiting? ==> count == s.log.freed
    case ProducerLoadFlag(flag) => flag == s.ring.throttled
    case ConsumerLoadFlag(flag) => flag == s.ring.throttled
    case _ => true
  }

  /** A pop has stored the tail and has not yet finished deciding about the flag. */
  predicate ClearPending(c: Consumer) {
    c.NotifyTail? || c.LoadClear? || c.Exchange?
  }

  /** Draining to the low watermark with the flag raised leaves a pop about to clear it. */
  ghost predicate FlagWatched(s: State) {
    s.ring.throttled && Occupancy(s) <= s.cfg.low ==> ClearPending(s.consumer)
  }

  ghost predicate WaitInv(s: State) {
    s.producer.Waiting? ==>
      match s.producer.wait
      case LoadSnapshot => true
      case LoadThrottle(_, occ) => occ > s.cfg.low ==> FlagWatched(s)
      case CompareFlag => FlagWatched(s)
      case BlockedOnFlag => FlagWatched(s) && (!s.ring.throttled ==> s.consumer.NotifyFlag?)
      case CompareTail(_) => |s.log.pushed| - s.log.seenTail == s.cfg.cap - 1
      case BlockedOnTail(_) =>
        && |s.log.pushed| - s.log.seenTail == s.cfg.cap - 1
        && (s.log.freed != s.log.seenTail ==> s.consumer.NotifyTail?)
  }

  /** After a granted wait the occupancy the producer last saw admits a push, whatever the consumer does. */
  ghost predicate GrantInv(s: State) {
    s.log.granted ==>
      var occ := |s.log.pushed| - s.log.seenTail;
      && !s.producer.Waiting?
      && occ < s.cfg.cap - 1
      && (occ <= s.cfg.low || (occ < s.cfg.high && !s.ring.throttled))
      && (s.producer.Pushing? && s.producer.push.RepairFlag? ==> !s.producer.push.before)
      && !(s.producer.Pushing? && s.producer.push.RaiseFlag?)
  }

  // ---------------------------------------------------------------- preservation

  lemma WaitInvProducer<T>(s: State<T>, step: Step<T>)
    requires Inv(s) && WaitInv(s) && Enabled(s, step) && Current(s, step)
    requires !step.StartPop? && !step.ConsumerLoadHead? && !step.ConsumerLoadFlag? && !step.ConsumerStep?
    ensures WaitInv(Apply(s, step))
  {
    match step
    case ProducerLoadTail(count) => MaskedDistanceIsDifference(|s.log.pushed|, count, s.cfg.cap);
    case ProducerStep => WrapDistance(s.log.freed, s.log.seenTail, s.cfg.cap);
    case _ =>
  }

  lemma WaitInvConsumer<T>(s: State<T>, step: Step<T>)
    requires Inv(s) && WaitInv(s) && Enabled(s, step) && Current(s, step)
    requires step.StartPop? || step.ConsumerLoadHead? || step.ConsumerLoadFlag? || step.ConsumerStep?
    ensures WaitInv(Apply(s, step))
  {
    if step.ConsumerStep? && s.consumer.NotifyTail? {
      MaskedDistanceIsDifference(s.log.seenHead, s.log.freed, s.cfg.cap);
    }
  }

  lemma GrantInvStep<T>(s: State<T>, step: Step<T>)
    requires Inv(s) && GrantInv(s) && Enabled(s, step) && Current(s, step)
    ensures GrantInv(Apply(s, step))
  {
  }

  ghost predicate FullInv(s: State) {
    Inv(s) && WaitInv(s) && GrantInv(s)
  }

  lemma FullInvStep<T>(s: State<T>, step: Step<T>)
    requires FullInv(s) && Enabled(s, step) && Current(s, step)
    ensures FullInv(Apply(s, step))
  {
    StepInv(s, step);
    GrantInvStep(s, step);
    if step.StartPop? || step.ConsumerLoadHead? || step.ConsumerLoadFlag? || step.ConsumerStep? {
      WaitInvConsumer(s, step);
    } else {
      WaitInvProducer(s, step);
    }
  }

  /** `t` can be reached from `s` by steps whose flag and snapshot loads are current. */
  ghost predicate CurrentRun<T>(s: State<T>, steps: seq<Step<T>>)
    decreases |steps|
  {
    steps == [] ||
    (Enabled(s, steps[0]) && Current(s, steps[0]) && CurrentRun(Apply(s, steps[0]), steps[1..]))
  }

  lemma {:induction false} CurrentRunInv<T>(s: State<T>, steps: seq<Step<T>>)
    requires FullInv(s) && CurrentRun(s, steps)
    ensures Legal(s, steps) && FullInv(Final(s, steps))
    decreases |steps|
  {
    if steps != [] {
      FullInvStep(s, steps[0]);
      CurrentRunInv(Apply(s, steps[0]), steps[1..]);
    }
  }

  // ---------------------------------------------------------------- no lost wake-up

  /**
  A producer blocked on the flag: the flag is still raised and elements above the low
  watermark remain or a pop is already on its way to clearing it, or the flag is down and the
  notification is the consumer's next action. A producer blocked on the tail: the tail is
  still the snapshot and the ring is not empty, or the notification is the next action. In
  particular the tail cannot have lapped back onto the snapshot.
  */
  ghost predicate WillBeWoken(s: State) {
    && (s.producer == Waiting(BlockedOnFlag) ==>
          if s.ring.throttled then Occupancy(s) > s.cfg.low || ClearPending(s.consumer)
          else s.consumer.NotifyFlag?)
    && (s.producer.Waiting? && s.producer.wait.BlockedOnTail? ==>
          || (s.ring.tail == s.producer.wait.snapshot && s.log.freed == s.log.seenTail && Occupancy(s) > 0)
          || s.consumer.NotifyTail?)
  }

  lemma NoLostWakeup<T>(cfg: Config, steps: seq<Step<T>>)
    requires Configured(cfg) && CurrentRun(Start<T>(cfg), steps)
    ensures Legal(Start<T>(cfg), steps)
    ensures WillBeWoken(Final(Start<T>(cfg), steps))
    ensures var s := Final(Start<T>(cfg), steps);
            Blocked(s.producer) ==> !(s.consumer.Resting? && s.ring.head == s.ring.tail)
  {
    StartInv<T>(cfg);
    CurrentRunInv(Start<T>(cfg), steps);
    var s := Final(Start<T>(cfg), steps);
    WrapDistance(|s.log.pushed|, s.log.freed, s.cfg.cap);
  }

  /** A consumer that keeps calling `try_pop`, loading the latest head. */
  function NextPop<T>(s: State<T>): Step<T> {
    match s.consumer
    case Resting => StartPop
    case LoadHead => ConsumerLoadHead(|s.log.pushed|)
    case LoadClear => ConsumerLoadFlag(s.ring.throttled)
    case _ => ConsumerStep
  }

  /** How many consumer steps may pass before a blocked producer is woken. */
  function WakeRank(s: State): nat
    requires s.log.freed <= |s.log.pushed|
  {
    10 * (|s.log.pushed| - s.log.freed) +
    match s.consumer
    case Resting => 8
    case LoadHead => 7
    case Take(_) => 6
    case StoreTail(_) => 5
    case NotifyTail(_) => 14
    case LoadClear => 13
    case Exchange => 12
    case NotifyFlag => 11
  }

  lemma NextPopEnabled<T>(s: State<T>)
    requires Inv(s)
    ensures Enabled(s, NextPop(s)) && Current(s, NextPop(s))
  {
  }

  /** While the producer stays blocked, each step of a popping consumer lowers the rank. */
  lemma NextPopLowersRank<T>(s: State<T>)
    requires FullInv(s) && Blocked(s.producer) && Enabled(s, NextPop(s))
    ensures var next := Apply(s, NextPop(s));
            Blocked(next.producer) && next.log.freed <= |next.log.pushed| ==> WakeRank(next) < WakeRank(s)
  {
    if s.consumer.LoadHead? {
      WrapDistance(|s.log.pushed|, s.log.freed, s.cfg.cap);
    }
  }

  lemma NextPopAdvances<T>(s: State<T>)
    requires FullInv(s) && Blocked(s.producer)
    ensures Enabled(s, NextPop(s)) && Current(s, NextPop(s))
    ensures FullInv(Apply(s, NextPop(s)))
    ensures Blocked(Apply(s, NextPop(s)).producer) ==> WakeRank(Apply(s, NextPop(s))) < WakeRank(s)
  {
    NextPopEnabled(s);
    FullInvStep(s, NextPop(s));
    NextPopLowersRank(s);
  }

  ghost function AfterPops<T>(s: State<T>, n: nat): State<T>
    requires FullInv(s)
    decreases n
  {
    if n == 0 || !Blocked(s.producer) then s
    else
      NextPopAdvances(s);
      AfterPops(Apply(s, NextPop(s)), n - 1)
  }

  /** Whoever is blocked is woken within a bounded number of steps of a popping consumer. */
  lemma {:induction false} PoppingWakesProducer<T>(s: State<T>)
    requires FullInv(s)
    ensures !Blocked(AfterPops(s, WakeRank(s) + 1).producer)
    decreases WakeRank(s)
  {
    WakesWithin(s, WakeRank(s) + 1);
  }

  lemma {:induction false} WakesWithin<T>(s: State<T>, n: nat)
    requires FullInv(s) && n > WakeRank(s)
    ensures !Blocked(AfterPops(s, n).producer)
    decreases n
  {
    if Blocked(s.producer) {
      NextPopAdvances(s);
      var next := Apply(s, NextPop(s));
      if Blocked(next.producer) {
        WakesWithin(next, n - 1);
      }
    }
  }

  // ---------------------------------------------------------------- a return is a promise

  /** `step` makes the running `try_push` return false. */
  ghost predicate PushFails<T>(s: State<T>, step: Step<T>)
    requires Enabled(s, step)
  {
    && s.producer.Pushing?
    && Apply(s, step).producer.Idle?
    && Apply(s, step).log.pushed == s.log.pushed
    && !s.producer.push.RaiseFlag?
  }

  /**
  Once `wait_until_can_send` has returned, the next push cannot fail, however many pops and
  flag clears the consumer interleaves before and during it.
  */
  lemma GrantedPushSucceeds<T>(cfg: Config, steps: seq<Step<T>>, step: Step<T>)
    requires Configured(cfg) && CurrentRun(Start<T>(cfg), steps)
    requires Legal(Start<T>(cfg), steps)
    requires var s := Final(Start<T>(cfg), steps);
             s.log.granted && Enabled(s, step) && Current(s, step)
    ensures !PushFails(Final(Start<T>(cfg), steps), step)
  {
    StartInv<T>(cfg);
    CurrentRunInv(Start<T>(cfg), steps);
    var s := Final(Start<T>(cfg), steps);
    if step.ProducerLoadTail? && s.producer.Pushing? {
      FullTest(|s.log.pushed|, step.count, s.cfg.cap);
    }
  }

  // ---------------------------------------------------------------- the wait terminates

  /** The one step a waiting, unblocked producer can take. */
  function NextWait<T>(s: State<T>): Step<T> {
    if AtTailLoad(s.producer) then ProducerLoadTail(s.log.freed)
    else if AtFlagLoad(s.producer) then ProducerLoadFlag(s.ring.throttled)
    else ProducerStep
  }

  function ReturnRank(w: Wait): nat {
    match w
    case LoadThrottle(_, occ) => if occ == 0 then 1 else 4
    case LoadSnapshot => 2
    case _ => 3
  }

  /** With the ring drained and the consumer at rest, a waiting producer is never blocked and returns within four steps. */
  lemma DrainedWaitReturns<T>(s: State<T>)
    requires FullInv(s) && s.producer.Waiting? && s.consumer.Resting? && s.log.freed == |s.log.pushed|
    ensures !Blocked(s.producer) && Enabled(s, NextWait(s)) && Current(s, NextWait(s))
    ensures var next := Apply(s, NextWait(s));
            && FullInv(next)
            && next.consumer == s.consumer && next.log.pushed == s.log.pushed && next.log.freed == s.log.freed
            && (if next.producer.Waiting? then ReturnRank(next.producer.wait) < ReturnRank(s.producer.wait)
                else next.producer.Idle? && next.log.granted)
  {
    FullInvStep(s, NextWait(s));
    MaskedDistanceIsDifference(|s.log.pushed|, s.log.freed, s.cfg.cap);
    WrapDistance(s.log.freed, s.log.seenTail, s.cfg.cap);
  }

  // ---------------------------------------------------------------- where the promises end

  /** One full turn of the wait loop with nobody else moving. */
  function Turn<T>(s: State<T>): seq<Step<T>> {
    [ProducerStep, ProducerLoadTail(s.log.freed), ProducerLoadFlag(s.ring.throttled)]
  }

  /**
  `wait_until_can_send` is documented not to spin. It spins exactly when the ring is at the
  high watermark with the flag down: it decides to wait for the flag to fall, finds it
  fallen, and starts over without having stored it.
  */
  lemma SpinsExactlyWhen<T>(s: State<T>)
    requires Inv(s) && s.producer == Waiting(CompareFlag) && s.log.seenTail == s.log.freed
    ensures CurrentRun(s, Turn(s)) && Legal(s, Turn(s)) && Final(s, Turn(s)) == s
            <==> !s.ring.throttled && Occupancy(s) >= s.cfg.high && Occupancy(s) > s.cfg.low
  {
    var t := Turn(s);
    var t1, t2: seq<Step<T>>, t3: seq<Step<T>> := [t[1], t[2]], [t[2]], [];
    assert t[1..] == t1 && t1[1..] == t2 && t2[1..] == t3;
    var s1 := Apply(s, t[0]);
    if s.ring.throttled {
      assert !Enabled(s1, t1[0]);
    } else {
      MaskedDistanceIsDifference(|s.log.pushed|, s.log.freed, s.cfg.cap);
      var s2 := Apply(s1, t1[0]);
      assert s2 == s.(producer := Waiting(LoadThrottle(s.ring.tail, Occupancy(s))));
      var s3 := Apply(s2, t2[0]);
      assert CurrentRun(s3, t3) && Legal(s3, t3) && Final(s3, t3) == s3;
      assert CurrentRun(s2, t2) && Legal(s2, t2);
      assert Final(s2, t2) == Final(s3, t2[1..]);
      assert CurrentRun(s1, t1) && Legal(s1, t1) && Final(s1, t1) == s3;
    }
  }

  /** Reachable by a run whose flag and snapshot loads are current. */
  ghost predicate Reachable(cfg: Config, s: State<int>) {
    exists steps: seq<Step<int>> ::
      CurrentRun(Start<int>(cfg), steps) && Legal(Start<int>(cfg), steps) && Final(Start<int>(cfg), steps) == s
  }

  lemma {:induction false} RunThen<T>(s: State<T>, steps: seq<Step<T>>, step: Step<T>)
    requires CurrentRun(s, steps) && Legal(s, steps)
    requires Enabled(Final(s, steps), step) && Current(Final(s, steps), step)
    ensures CurrentRun(s, steps + [step]) && Legal(s, steps + [step])
    ensures Final(s, steps + [step]) == Apply(Final(s, steps), step)
    decreases |steps|
  {
    if steps == [] {
      assert (steps + [step])[1..] == [];
    } else {
      RunThen(Apply(s, steps[0]), steps[1..], step);
      assert (steps + [step])[1..] == steps[1..] + [step];
    }
  }

  lemma Do(cfg: Config, s: State<int>, step: Step<int>) returns (next: State<int>)
    requires Reachable(cfg, s) && Enabled(s, step) && Current(s, step)
    ensures next == Apply(s, step) && Reachable(cfg, next)
  {
    var steps: seq<Step<int>> :|
      CurrentRun(Start<int>(cfg), steps) && Legal(Start<int>(cfg), steps) && Final(Start<int>(cfg), steps) == s;
    RunThen(Start<int>(cfg), steps, step);
    next := Apply(s, step);
  }

  lemma AtStart(cfg: Config)
    ensures Reachable(cfg, Start<int>(cfg))
  {
    var steps: seq<Step<int>> := [];
    assert CurrentRun(Start<int>(cfg), steps);
  }

  /** Index arithmetic on a ring of four. */
  lemma RingOfFour()
    ensures RingSize(4)
    ensures forall p: nat :: p <= 3 ==> Wrap(p, 4) == p
    ensures forall p: nat, c: nat :: c <= p <= 3 ==> MaskedDistance(p, c, 4) == p - c
    ensures forall p: nat :: p < 3 ==> MaskedNext(p, 4) == p + 1
  {
    assert 4 == Bits.Pow2(2);
    assert forall p: nat :: p <= 3 ==> Wrap(p, 4) == p;
    forall p: nat, c: nat | c <= p <= 3 ensures MaskedDistance(p, c, 4) == p - c {
      MaskedDistanceIsDifference(p, c, 4);
    }
    forall p: nat | p < 3 ensures MaskedNext(p, 4) == p + 1 {
      MaskedNextIsWrap(p, 4);
    }
  }

  /** A push that meets no contention: from idle to published, seeing `tail` pops. */
  lemma QuietPush(cfg: Config, s: State<int>, v: int) returns (next: State<int>)
    requires cfg.cap == 4 && s.cfg == cfg && Indexed(cfg, s.ring) && Reachable(cfg, s) && s.producer.Idle?
    requires s.ring.head == |s.log.pushed| < 3 && s.log.seenTail <= s.log.freed <= |s.log.pushed|
    requires |s.log.pushed| - s.log.freed <= cfg.low
    ensures Reachable(cfg, next)
    ensures next.cfg == cfg && next.consumer == s.consumer && next.producer.Idle?
    ensures next.ring == Ring(s.ring.head + 1, s.ring.tail,
                              ComputeThrottled(|s.log.pushed| - s.log.freed + 1, cfg.low, cfg.high, false),
                              s.ring.cells[s.ring.head := Alive(v)])
    ensures next.log.pushed == s.log.pushed + [v] && next.log.freed == s.log.freed
    ensures next.log.seenTail == s.log.freed && next.log.seenHead == s.log.seenHead
  {
    RingOfFour();
    next := Do(cfg, s, StartPush(v));
    next := Do(cfg, next, ProducerLoadTail(s.log.freed));
    next := Do(cfg, next, ProducerLoadFlag(s.ring.throttled));
    if s.ring.throttled {
      next := Do(cfg, next, ProducerStep);
    }
    next := Do(cfg, next, ProducerStep);
    next := Do(cfg, next, ProducerStep);
    if next.producer.Pushing? {
      next := Do(cfg, next, ProducerStep);
    }
  }

  /** A pop that recorded the head before the second push is about to look at the flag. */
  lemma PopWithOldHead(cfg: Config) returns (s: State<int>)
    requires cfg == Config(4, 1, 2)
    ensures Reachable(cfg, s) && s.cfg == cfg && Indexed(cfg, s.ring)
    ensures s.producer.Idle? && s.consumer.LoadClear?
    ensures |s.log.pushed| == s.ring.head == 2 && s.log.freed == s.ring.tail == 1 && s.log.seenTail == 0
  {
    RingOfFour();
    AtStart(cfg);
    s := QuietPush(cfg, Start<int>(cfg), 10);
    s := Do(cfg, s, StartPop);
    s := Do(cfg, s, ConsumerLoadHead(1));
    s := QuietPush(cfg, s, 11);
    s := Do(cfg, s, ConsumerStep);
    s := Do(cfg, s, ConsumerStep);
    s := Do(cfg, s, ConsumerStep);
  }

  /** The spin is reachable: a pop that recorded an old head clears the flag raised by a later push. */
  lemma SpinIsReachable() returns (s: State<int>)
    ensures Reachable(Config(4, 1, 2), s)
    ensures s.producer == Waiting(CompareFlag) && s.consumer == Resting && s.log.seenTail == s.log.freed
    ensures !s.ring.throttled && Occupancy(s) >= s.cfg.high && Occupancy(s) > s.cfg.low
  {
    RingOfFour();
    var cfg := Config(4, 1, 2);
    s := PopWithOldHead(cfg);
    s := QuietPush(cfg, s, 12);
    s := Do(cfg, s, ConsumerLoadFlag(true));
    s := Do(cfg, s, ConsumerStep);
    s := Do(cfg, s, ConsumerStep);
    s := Do(cfg, s, StartWait);
    s := Do(cfg, s, ProducerLoadTail(1));
    s := Do(cfg, s, ProducerLoadFlag(false));
  }

  /** The producer has seen one element and not yet the flag; the consumer has popped it and not yet seen the flag. */
  lemma LastPopBeforeItsFlagLoad(cfg: Config) returns (s: State<int>)
    requires cfg == Config(4, 0, 1)
    ensures Reachable(cfg, s) && s.cfg == cfg && Indexed(cfg, s.ring)
    ensures s.producer == Waiting(LoadThrottle(0, 1)) && s.consumer == LoadClear
    ensures s.ring.head == s.ring.tail == 1 && s.ring.throttled
    ensures |s.log.pushed| == s.log.freed == 1
  {
    RingOfFour();
    AtStart(cfg);
    s := QuietPush(cfg, Start<int>(cfg), 10);
    s := Do(cfg, s, StartWait);
    s := Do(cfg, s, ProducerLoadTail(0));
    s := Do(cfg, s, StartPop);
    s := Do(cfg, s, ConsumerLoadHead(1));
    s := Do(cfg, s, ConsumerStep);
    s := Do(cfg, s, ConsumerStep);
    s := Do(cfg, s, ConsumerStep);
  }

  /**
  The wake-up guarantee does rest on the flag load being current. If the last pop misses the
  flag a concurrent push has raised, the producer blocks with the ring empty, the flag up and
  the consumer at rest: nothing is left that would wake it.
  */
  lemma StaleFlagLoadStrandsProducer() returns (before: State<int>, stuck: State<int>)
    ensures Reachable(Config(4, 0, 1), before) && Enabled(before, ConsumerLoadFlag(false)) && before.ring.throttled
    ensures var s1 := Apply(before, ConsumerLoadFlag(false));
            && Enabled(s1, ProducerLoadFlag(true)) && Current(s1, ProducerLoadFlag(true))
            && var s2 := Apply(s1, ProducerLoadFlag(true));
            && Enabled(s2, ProducerStep) && stuck == Apply(s2, ProducerStep)
    ensures stuck.producer == Waiting(BlockedOnFlag) && stuck.consumer.Resting? && stuck.ring.head == stuck.ring.tail
    ensures !WillBeWoken(stuck)
  {
    before := LastPopBeforeItsFlagLoad(Config(4, 0, 1));
    var s1 := Apply(before, ConsumerLoadFlag(false));
    var s2 := Apply(s1, ProducerLoadFlag(true));
    stuck := Apply(s2, ProducerStep);
  }
}
