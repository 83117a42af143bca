/**
 * The peck board controller (src/peckboard/lib.rs): interrupt-line discovery, decoding of the
 * three key lines, the per-position LED state vector with its three output groups, and the
 * monitoring loop that turns falling edges into key presses.
 */
module Peckboard {
  import opened Words
  import opened LedStates

  /** Lines of gpiochip2 that discovery listens on, in the order of the `select!` branches. */
  const InterruptCandidates: seq<nat> := [22, 23, 24, 25]

  /** Number of key positions (right, center, left) and the decoded value meaning "no key". */
  const Positions: nat := 3
  const NoKey: nat := 3

  // ---------------------------------------------------------------------------------------------
  // Interrupt discovery
  // ---------------------------------------------------------------------------------------------

  /**
   * The line `PeckBoard::new` commits to, given the chip-2 lines on which edges arrive, in the
   * order they arrive: the first arrival on a candidate line. None means no candidate ever fires,
   * in which case `new` waits forever.
   */
  function Discover(arrivals: seq<nat>): (line: Option<nat>)
    ensures line.None? <==> forall i :: 0 <= i < |arrivals| ==> arrivals[i] !in InterruptCandidates
    ensures line.Some? ==> line.value in InterruptCandidates
    ensures line.Some? ==> exists i :: 0 <= i < |arrivals| && arrivals[i] == line.value &&
                                       forall j :: 0 <= j < i ==> arrivals[j] !in InterruptCandidates
  {
    if arrivals == [] then None
    else if arrivals[0] in InterruptCandidates then Some(arrivals[0])
    else
      Discover(arrivals[1..])
  }

  /** When only one candidate line is wired, discovery finds that line whatever else happens. */
  lemma DiscoverSingleWiredLine(arrivals: seq<nat>, wired: nat)
    requires wired in arrivals
    requires forall i :: 0 <= i < |arrivals| && arrivals[i] in InterruptCandidates ==> arrivals[i] == wired
    requires wired in InterruptCandidates
    ensures Discover(arrivals) == Some(wired)
  {
  }

  // ---------------------------------------------------------------------------------------------
  // Key decoding
  // ---------------------------------------------------------------------------------------------

  /** `values.iter().position(|&x| x == 1)`: the index of the first line read as 1. */
  function FirstHigh(values: seq<u8>): (r: Option<nat>)
    ensures r.Some? ==> r.value < |values| && values[r.value] == 1
    ensures r.Some? ==> forall j :: 0 <= j < r.value ==> values[j] != 1
    ensures r.None? ==> forall j :: 0 <= j < |values| ==> values[j] != 1
  {
    if values == [] then None
    else if values[0] == 1 then Some(0)
    else match FirstHigh(values[1..])
      case None => None
      case Some(i) => Some(i + 1)
  }

  /** The position a key read decodes to: the first line read as 1, or NoKey when none is. */
  function DecodeKey(values: seq<u8>): (position: nat)
    ensures position == NoKey || (position < |values| && values[position] == 1)
    ensures forall j :: 0 <= j < |values| && j < position ==> values[j] != 1
    ensures (forall j :: 0 <= j < |values| ==> values[j] != 1) ==> position == NoKey
  {
    FirstHigh(values).GetOr(NoKey)
  }

  /** A one-hot read names its line; when several lines are 1 the lowest one wins. */
  lemma DecodeLowestHigh(values: seq<u8>, i: nat)
    requires |values| == Positions && i < Positions && values[i] == 1
    requires forall j :: 0 <= j < i ==> values[j] != 1
    ensures DecodeKey(values) == i
  {
  }

  // ---------------------------------------------------------------------------------------------
  // The state vector as a value
  // ---------------------------------------------------------------------------------------------

  /** The effect of a peck at `position` on the state vector: that entry advances, no other. */
  function Peck(states: seq<LedState>, position: nat): (r: seq<LedState>)
    ensures |r| == |states|
    ensures forall q :: 0 <= q < |states| && q != position ==> r[q] == states[q]
    ensures position < |states| ==> r[position] == Next(states[position])
  {
    if position < |states| then states[position := Next(states[position])] else states
  }

  datatype Edge = Rising | Falling

  /** One edge on the interrupt line, with what the key lines would read right after it. */
  datatype Event = Event(edge: Edge, keys: seq<u8>)

  /** The state vector after handling one event: rising edges are skipped. */
  function Handle(states: seq<LedState>, e: Event): (r: seq<LedState>)
    ensures |r| == |states|
    ensures e.edge == Rising || DecodeKey(e.keys) >= |states| ==> r == states
    ensures e.edge == Falling ==> forall q :: 0 <= q < |states| ==>
              r[q] == if q == DecodeKey(e.keys) then Next(states[q]) else states[q]
  {
    match e.edge
    case Rising => states
    case Falling => Peck(states, DecodeKey(e.keys))
  }

  /** The state vector after the monitoring loop has consumed `events`, in order. */
  function Replay(states: seq<LedState>, events: seq<Event>): (r: seq<LedState>)
    ensures |r| == |states|
    decreases |events|
  {
    if events == [] then states else Replay(Handle(states, events[0]), events[1..])
  }

  /** Number of events that count as a peck on `position`: falling edges whose read decodes to it. */
  function Presses(events: seq<Event>, position: nat): nat
    decreases |events|
  {
    if events == [] then 0
    else (if events[0].edge == Falling && DecodeKey(events[0].keys) == position then 1 else 0)
         + Presses(events[1..], position)
  }

  /** After any event sequence, each position has advanced once per falling edge decoded to it. */
  lemma {:induction false} ReplayCounts(states: seq<LedState>, events: seq<Event>)
    ensures |Replay(states, events)| == |states|
    ensures forall q :: 0 <= q < |states| ==> Replay(states, events)[q] == Advance(states[q], Presses(events, q))
    decreases |events|
  {
    if events != [] {
      var next := Handle(states, events[0]);
      ReplayCounts(next, events[1..]);
      forall q | 0 <= q < |states|
        ensures Replay(states, events)[q] == Advance(states[q], Presses(events, q))
      {
        if events[0].edge == Falling && DecodeKey(events[0].keys) == q {
          assert next[q] == Next(states[q]);
        } else {
          assert next[q] == states[q];
        }
      }
    }
  }

  /** Events that decode to no position (rising edges, reads with no key at 1) change nothing. */
  lemma {:induction false} ReplayIgnoresNoKey(states: seq<LedState>, events: seq<Event>)
    requires |states| == Positions
    requires forall i :: 0 <= i < |events| ==> events[i].edge == Rising || DecodeKey(events[i].keys) >= Positions
    ensures Replay(states, events) == states
    decreases |events|
  {
    if events != [] {
      ReplayIgnoresNoKey(Handle(states, events[0]), events[1..]);
    }
  }

  // ---------------------------------------------------------------------------------------------
  // The LED bank (`PeckLEDs`)
  // ---------------------------------------------------------------------------------------------

  /**
   * The per-position states and, for each of the three output groups, the pattern last written
   * to it (right: lines 0,3,6; center: 1,4,7; left: 2,5,8).
   */
  class PeckLeds {
    var peckPosition: seq<LedState>
    var rightLeds: seq<u8>
    var centerLeds: seq<u8>
    var leftLeds: seq<u8>

    /** The pattern last written to the group of `position`. */
    function Group(position: nat): seq<u8>
      reads this
      requires position < Positions
    {
      if position == 0 then rightLeds else if position == 1 then centerLeds else leftLeds
    }

    /** Every group shows the pattern of the state stored for its position. */
    ghost predicate Valid()
      reads this
    {
      && |peckPosition| == Positions
      && rightLeds == AsValue(peckPosition[0])
      && centerLeds == AsValue(peckPosition[1])
      && leftLeds == AsValue(peckPosition[2])
    }

    /** `PeckLEDs::new`: every group requested with Off's pattern, every state Off. */
    constructor ()
      ensures Valid()
      ensures peckPosition == [Off, Off, Off]
      ensures forall q :: 0 <= q < Positions ==> Group(q) == AsValue(Off)
    {
      rightLeds := AsValue(Off);
      centerLeds := AsValue(Off);
      leftLeds := AsValue(Off);
      peckPosition := [Off, Off, Off];
    }

    /**
     * `PeckLEDs::pecked`: advance the state of `position` and write its new pattern to that
     * position's group; any position past the last is ignored.
     */
    method Pecked(position: nat)
      requires Valid()
      modifies this
      ensures Valid()
      ensures peckPosition == Peck(old(peckPosition), position)
      ensures position < Positions ==> Group(position) == AsValue(Next(old(peckPosition)[position]))
      ensures forall q :: 0 <= q < Positions && q != position ==> Group(q) == old(Group(q))
      ensures position >= Positions ==> unchanged(this)
    {
      match position
      case 0 =>
        peckPosition := peckPosition[0 := Next(peckPosition[0])];
        rightLeds := AsValue(peckPosition[0]);
      case 1 =>
        peckPosition := peckPosition[1 := Next(peckPosition[1])];
        centerLeds := AsValue(peckPosition[1]);
      case 2 =>
        peckPosition := peckPosition[2 := Next(peckPosition[2])];
        leftLeds := AsValue(peckPosition[2]);
      case _ =>
    }
  }

  // ---------------------------------------------------------------------------------------------
  // The controller (`PeckBoard`)
  // ---------------------------------------------------------------------------------------------

  class PeckBoard {
    const leds: PeckLeds
    /** The chip-2 line discovery chose (`PeckKeys::interrupt_line`). */
    const interruptLine: nat

    ghost predicate Valid()
      reads this, leds
    {
      leds.Valid() && interruptLine in InterruptCandidates
    }

    /**
     * `PeckBoard::new`: discovery over the given edge arrivals, then the LED bank in its
     * initial state. It only returns once some candidate line fires.
     */
    constructor (arrivals: seq<nat>)
      requires Discover(arrivals).Some?
      ensures Valid() && fresh(leds)
      ensures interruptLine == Discover(arrivals).value
      ensures leds.peckPosition == [Off, Off, Off]
    {
      interruptLine := Discover(arrivals).value;
      leds := new PeckLeds();
    }

    /**
     * The loop of `PeckBoard::monitor` over a finite stream of edges: rising edges are skipped;
     * on a falling edge the key read is decoded and that position pecked. The loop ends with the
     * stream.
     */
    method Monitor(events: seq<Event>)
      requires Valid()
      modifies leds
      ensures Valid()
      ensures leds.peckPosition == Replay(old(leds.peckPosition), events)
      ensures forall q :: 0 <= q < Positions ==>
                leds.peckPosition[q] == Advance(old(leds.peckPosition)[q], Presses(events, q) % 5)
    {
      for k := 0 to |events|
        invariant Valid()
        invariant Replay(leds.peckPosition, events[k..]) == Replay(old(leds.peckPosition), events)
      {
        assert events[k..][1..] == events[k + 1..];
        match events[k].edge
        case Rising =>
        case Falling =>
          var position := DecodeKey(events[k].keys);
          leds.Pecked(position);
      }
      assert events[|events|..] == [];
      ReplayCounts(old(leds.peckPosition), events);
      forall q | 0 <= q < Positions
        ensures leds.peckPosition[q] == Advance(old(leds.peckPosition)[q], Presses(events, q) % 5)
      {
        AdvanceMod5(old(leds.peckPosition)[q], Presses(events, q));
      }
    }
  }

  /** A rising then a falling edge with the center key down advances only the center position. */
  lemma RisingThenFallingOnCenter(states: seq<LedState>)
    requires |states| == Positions
    ensures Replay(states, [Event(Rising, [0, 1, 0]), Event(Falling, [0, 1, 0])])
            == [states[0], Next(states[1]), states[2]]
  {
    var events := [Event(Rising, [0, 1, 0]), Event(Falling, [0, 1, 0])];
    assert DecodeKey([0, 1, 0]) == 1;
    assert events[1..][1..] == [];
  }

  /** Two falling edges on the center key from the initial state: Off, then Blue, then Red. */
  lemma DoublePeckOnCenter()
    ensures Replay([Off, Off, Off], [Event(Falling, [0, 1, 0]), Event(Falling, [0, 1, 0])])
            == [Off, Red, Off]
  {
    var events := [Event(Falling, [0, 1, 0]), Event(Falling, [0, 1, 0])];
    assert DecodeKey([0, 1, 0]) == 1;
    assert events[1..][1..] == [];
  }
}
