/**
 * The wizard's section index as a state machine over `count` sections.
 * Next advances by one only when the current section validated and is not the
 * last; Prev steps back by one unless already at the first section.
 */
module SectionNavigator {

  /** The index after Next, given whether the current section validated. */
  function NextIndex(current: nat, count: nat, isValid: bool): (next: nat)
    ensures next == current + 1 <==> isValid && current + 1 < count
    ensures next != current + 1 ==> next == current
    ensures current < count ==> next < count
  {
    if isValid && current < count - 1 then current + 1 else current
  }

  /**
   * Next as the handler is written: the guard reads `rendered`, the index the
   * handler captured when its render ran, while the functional update adds one
   * to `current`, the index at the moment the update applies. When no other
   * update came in between, the two agree and this is NextIndex.
   */
  function CapturedNextIndex(rendered: nat, current: nat, count: nat, isValid: bool): (next: nat)
    ensures rendered == current ==> next == NextIndex(current, count, isValid)
    ensures next == current + 1 <==> isValid && rendered + 1 < count
    ensures next != current + 1 ==> next == current
  {
    if isValid && rendered < count - 1 then current + 1 else current
  }

  /**
   * Two validated Next presses handled from the same render of the next-to-last
   * section both pass the guard, and their updates leave the index at `count`,
   * one past the last section.
   */
  lemma OverlappingNextsOvershoot(count: nat)
    requires count >= 2
    ensures var rendered := count - 2;
      CapturedNextIndex(rendered, CapturedNextIndex(rendered, rendered, count, true), count, true) == count
  {
  }

  /** The index after Prev; Prev does not consult validation. */
  function PrevIndex(current: nat): (prev: nat)
    ensures current > 0 ==> prev + 1 == current
    ensures current == 0 ==> prev == 0
  {
    if current > 0 then current - 1 else current
  }

  /** A press of Next (with the outcome of validating the section) or of Prev. */
  datatype NavEvent = Next(isValid: bool) | Prev

  function Step(count: nat, current: nat, e: NavEvent): nat {
    match e
    case Next(isValid) => NextIndex(current, count, isValid)
    case Prev => PrevIndex(current)
  }

  /** The index after a sequence of presses, first press first. */
  function Run(count: nat, current: nat, events: seq<NavEvent>): nat
    decreases |events|
  {
    if events == [] then current else Run(count, Step(count, current, events[0]), events[1..])
  }

  /** The number of Next presses whose section validated. */
  function ValidNexts(events: seq<NavEvent>): nat {
    if events == [] then 0
    else (if events[0] == Next(true) then 1 else 0) + ValidNexts(events[1..])
  }

  function Repeat(e: NavEvent, k: nat): (es: seq<NavEvent>)
    ensures |es| == k
  {
    if k == 0 then [] else [e] + Repeat(e, k - 1)
  }

  /** From any index inside the form, every sequence of presses stays inside it. */
  lemma {:induction false} RunStaysInRange(count: nat, start: nat, events: seq<NavEvent>)
    requires start < count
    ensures Run(count, start, events) < count
    decreases |events|
  {
    if events != [] {
      RunStaysInRange(count, Step(count, start, events[0]), events[1..]);
    }
  }

  /** The index never gets further ahead than the number of validated Next presses. */
  lemma {:induction false} RunBoundedByValidNexts(count: nat, start: nat, events: seq<NavEvent>)
    ensures Run(count, start, events) <= start + ValidNexts(events)
    decreases |events|
  {
    if events != [] {
      RunBoundedByValidNexts(count, Step(count, start, events[0]), events[1..]);
    }
  }

  /** k validated Next presses reach section start + k, stopping at the last section. */
  lemma {:induction false} ValidNextsAdvance(count: nat, start: nat, k: nat)
    requires start < count
    ensures Run(count, start, Repeat(Next(true), k)) == if start + k < count then start + k else count - 1
    decreases k
  {
    if k > 0 {
      assert Repeat(Next(true), k)[1..] == Repeat(Next(true), k - 1);
      ValidNextsAdvance(count, NextIndex(start, count, true), k - 1);
    }
  }

  /** Next presses whose section fails validation never move the index. */
  lemma {:induction false} FailedNextsStay(count: nat, start: nat, k: nat)
    ensures Run(count, start, Repeat(Next(false), k)) == start
  {
    if k > 0 {
      assert Repeat(Next(false), k)[1..] == Repeat(Next(false), k - 1);
      FailedNextsStay(count, start, k - 1);
    }
  }

  /** k Prev presses go back k sections, stopping at the first. */
  lemma {:induction false} PrevsRetreat(count: nat, start: nat, k: nat)
    ensures Run(count, start, Repeat(Prev, k)) == if start >= k then start - k else 0
  {
    if k > 0 {
      assert Repeat(Prev, k)[1..] == Repeat(Prev, k - 1);
      PrevsRetreat(count, PrevIndex(start), k - 1);
    }
  }

  /** A validated Next followed by Prev returns to the section it started from. */
  lemma NextThenPrevReturns(count: nat, start: nat)
    requires start + 1 < count
    ensures Run(count, start, [Next(true), Prev]) == start
  {
  }
}
