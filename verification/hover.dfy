/** The component's interaction state: the index of the hovered month slice
    and the hovered month's name, both absent (null) when nothing is hovered.
    Entering a month slice and leaving the month ring are the only
    transitions. */
module Hover {
  import opened Rings

  /** A possibly absent value; `None` plays the part of `null`. */
  datatype Option<+T> = None | Some(value: T)

  /** The two state fields, `activeIndex` and `selectedMonth`. */
  datatype HoverState = HoverState(activeIndex: Option<int>, selectedMonth: Option<string>)

  /** Nothing hovered: the state the component starts in. */
  const Initial: HoverState := HoverState(None, None)

  /** A pointer event delivered by the month ring. */
  datatype Event = PieEnter(index: int) | PieLeave

  /** The invariant tying the two fields together: both absent, or the index
      is a slice of `monthData` and the month is that slice's name. */
  predicate Valid(s: HoverState, monthData: seq<MonthSlice>)
  {
    || (s.activeIndex.None? && s.selectedMonth.None?)
    || (&& s.activeIndex.Some?
        && 0 <= s.activeIndex.value < |monthData|
        && s.selectedMonth == Some(monthData[s.activeIndex.value].name))
  }

  /** Pointer enters month slice `index`: the slice becomes active and its
      month selected, whatever was hovered before. The component reads
      `monthData[index]`, so only indices of existing slices are allowed. */
  function OnPieEnter(s: HoverState, monthData: seq<MonthSlice>, index: int): (r: HoverState)
    requires 0 <= index < |monthData|
    ensures Valid(r, monthData)
    ensures r.activeIndex == Some(index)
  {
    HoverState(Some(index), Some(monthData[index].name))
  }

  /** Pointer leaves the month ring: both fields are cleared. */
  function OnPieLeave(s: HoverState): (r: HoverState)
    ensures r.activeIndex.None? && r.selectedMonth.None?
  {
    HoverState(None, None)
  }

  /** Every pointer-enter of `events` names an existing slice. */
  predicate InRange(events: seq<Event>, monthData: seq<MonthSlice>)
  {
    forall n :: 0 <= n < |events| && events[n].PieEnter? ==> 0 <= events[n].index < |monthData|
  }

  /** One transition: whatever the state before, the state after is valid,
      and a slice is active afterwards exactly when the event entered one. */
  function Step(s: HoverState, monthData: seq<MonthSlice>, e: Event): (r: HoverState)
    requires e.PieEnter? ==> 0 <= e.index < |monthData|
    ensures Valid(r, monthData)
    ensures r.activeIndex.Some? <==> e.PieEnter?
    ensures e.PieEnter? ==> r.activeIndex == Some(e.index)
  {
    match e
    case PieEnter(i) => OnPieEnter(s, monthData, i)
    case PieLeave => OnPieLeave(s)
  }

  /** The state after delivering `events` in order: valid whenever at least
      one event was delivered or the start state was valid. */
  function Run(s: HoverState, monthData: seq<MonthSlice>, events: seq<Event>): (r: HoverState)
    requires InRange(events, monthData)
    ensures |events| > 0 ==> Valid(r, monthData)
    ensures Valid(s, monthData) ==> Valid(r, monthData)
    decreases |events|
  {
    if |events| == 0 then s
    else Run(Step(s, monthData, events[0]), monthData, events[1..])
  }

  /** The initial state satisfies the invariant. */
  lemma InitialValid(monthData: seq<MonthSlice>)
    ensures Valid(Initial, monthData)
  {
  }

  /** Every transition preserves the invariant. */
  lemma StepPreservesValid(s: HoverState, monthData: seq<MonthSlice>, e: Event)
    requires e.PieEnter? ==> 0 <= e.index < |monthData|
    requires Valid(s, monthData)
    ensures Valid(Step(s, monthData, e), monthData)
  {
  }

  /** Every state reachable from a valid one satisfies the invariant. */
  lemma {:induction false} RunPreservesValid(s: HoverState, monthData: seq<MonthSlice>, events: seq<Event>)
    requires InRange(events, monthData)
    requires Valid(s, monthData)
    ensures Valid(Run(s, monthData, events), monthData)
    decreases |events|
  {
    if |events| > 0 {
      StepPreservesValid(s, monthData, events[0]);
      RunPreservesValid(Step(s, monthData, events[0]), monthData, events[1..]);
    }
  }

  /** Entering a slice and then leaving returns exactly to the initial
      state. */
  lemma EnterThenLeave(s: HoverState, monthData: seq<MonthSlice>, i: int)
    requires 0 <= i < |monthData|
    ensures OnPieLeave(OnPieEnter(s, monthData, i)) == Initial
  {
  }

  /** The last enter wins: entering `i` and then `j` is the same as entering
      `j` alone, from any state. */
  lemma EnterThenEnter(s: HoverState, monthData: seq<MonthSlice>, i: int, j: int)
    requires 0 <= i < |monthData| && 0 <= j < |monthData|
    ensures OnPieEnter(OnPieEnter(s, monthData, i), monthData, j) == OnPieEnter(s, monthData, j)
  {
  }

  /** The state after any run depends only on its last event: it is the
      initial state when there are no events or the last one is a leave, and
      the state of entering that slice alone otherwise. */
  lemma {:induction false} RunLastEventWins(s: HoverState, monthData: seq<MonthSlice>, events: seq<Event>)
    requires InRange(events, monthData)
    ensures |events| == 0 ==> Run(s, monthData, events) == s
    ensures |events| > 0 && events[|events| - 1].PieLeave? ==>
      Run(s, monthData, events) == Initial
    ensures |events| > 0 && events[|events| - 1].PieEnter? ==>
      Run(s, monthData, events) ==
        HoverState(Some(events[|events| - 1].index), Some(monthData[events[|events| - 1].index].name))
    decreases |events|
  {
    if |events| > 1 {
      RunLastEventWins(Step(s, monthData, events[0]), monthData, events[1..]);
      assert events[1..][|events| - 2] == events[|events| - 1];
    }
  }
}
