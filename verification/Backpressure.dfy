/** The watermark hysteresis of the channel and the clamping of its configuration. */
module Backpressure {

  /** Applies the watermarks to an occupancy; between them the current state is kept. */
  function ComputeThrottled(occupancy: nat, low: nat, high: nat, current: bool): bool {
    if occupancy <= low then false
    else if occupancy >= high then true
    else current
  }

  /** The high watermark actually installed for a requested one. */
  function ClampHigh(requested: nat, usable: nat): nat {
    var high := if requested == 0 then 1 else requested;
    if high > usable then usable else high
  }

  /** The low watermark actually installed for a requested one. */
  function ClampLow(requested: nat, high: nat): nat {
    if requested > high then high else requested
  }

  /** Whatever is requested, the installed watermarks are ordered and the ring can reach them. */
  lemma ClampsFit(lowRequest: nat, highRequest: nat, usable: nat)
    requires usable > 0
    ensures var high := ClampHigh(highRequest, usable); ClampLow(lowRequest, high) <= high && 1 <= high <= usable
  {
  }

  /** An occupancy together with the watermarks in force when it was reached. */
  datatype Observation = Observation(occupancy: nat, low: nat, high: nat)

  /** The reference automaton: released at the start, then driven by each occupancy in turn. */
  function Hysteresis(history: seq<Observation>): bool {
    if history == [] then false
    else
      var last := history[|history| - 1];
      ComputeThrottled(last.occupancy, last.low, last.high, Hysteresis(history[..|history| - 1]))
  }

  lemma HysteresisExtend(history: seq<Observation>, last: Observation)
    ensures Hysteresis(history + [last]) ==
            ComputeThrottled(last.occupancy, last.low, last.high, Hysteresis(history))
  {
    assert (history + [last])[..|history|] == history;
  }

  /** Having reached an occupancy, the automaton agrees with it: re-applying the rule changes nothing. */
  lemma HysteresisAgrees(history: seq<Observation>)
    requires history != []
    ensures var last := history[|history| - 1];
            ComputeThrottled(last.occupancy, last.low, last.high, Hysteresis(history)) == Hysteresis(history)
  {
  }

  /** Losing one element can only release the automaton: clearing at the low watermark is all a pop has to do. */
  lemma HysteresisAfterPop(history: seq<Observation>)
    requires history != [] && history[|history| - 1].occupancy > 0
    ensures var last := history[|history| - 1];
            Hysteresis(history + [Observation(last.occupancy - 1, last.low, last.high)]) ==
            if last.occupancy - 1 <= last.low then false else Hysteresis(history)
  {
    var last := history[|history| - 1];
    HysteresisAgrees(history);
    HysteresisExtend(history, Observation(last.occupancy - 1, last.low, last.high));
  }
}
