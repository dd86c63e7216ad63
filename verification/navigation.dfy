/** The slide-navigation state of the presentation script and its three
    navigation operations. The script keeps one navigation cell, the index of
    the current slide; the number of slides `n` is a constant of the page
    (nine in the shipped presentation) and is a parameter here. */
module Navigation {

  /** The controller's state: the index of the slide being shown. */
  datatype State = State(current: int)

  /** What one handler run leaves behind: the new state, whether it asked
      the page to scroll the new slide into view, and whether it refreshed
      the indicators (counter, progress bar, dots, buttons). */
  datatype Outcome = Outcome(state: State, scroll: bool, refresh: bool)

  /** The central invariant: the index names one of the `n` slides. */
  predicate InRange(s: State, n: nat) {
    0 <= s.current < n
  }

  /** The page starts on the first slide. */
  function Initial(): State {
    State(0)
  }

  /** A handler run that changes nothing and asks for nothing. */
  function Stay(s: State): Outcome {
    Outcome(s, false, false)
  }

  /** Jump to slide `index`. An index outside `[0, n)` is silently ignored;
      a valid one (even the current one) becomes current, is scrolled into
      view and the indicators are refreshed. */
  function GoToSlide(s: State, n: nat, index: int): (r: Outcome)
    ensures r.scroll <==> 0 <= index < n
    ensures r.scroll ==> r.state == State(index) && r.refresh
    ensures !r.scroll ==> r == Stay(s)
    ensures InRange(s, n) ==> InRange(r.state, n)
  {
    if 0 <= index && index < n then Outcome(State(index), true, true) else Stay(s)
  }

  /** Move one slide forward; a no-op on the last slide (no wrap-around). */
  function NextSlide(s: State, n: nat): (r: Outcome)
    ensures InRange(s, n) && s.current < n - 1 ==> r.state.current == s.current + 1 && r.scroll
    ensures s.current == n - 1 ==> r == Stay(s)
    ensures InRange(s, n) ==> InRange(r.state, n)
    ensures r.scroll <==> r.refresh
  {
    if s.current < n - 1 then GoToSlide(s, n, s.current + 1) else Stay(s)
  }

  /** Move one slide back; a no-op on the first slide (no wrap-around). */
  function PrevSlide(s: State, n: nat): (r: Outcome)
    ensures InRange(s, n) && s.current > 0 ==> r.state.current == s.current - 1 && r.scroll
    ensures s.current == 0 ==> r == Stay(s)
    ensures InRange(s, n) ==> InRange(r.state, n)
    ensures r.scroll <==> r.refresh
  {
    if s.current > 0 then GoToSlide(s, n, s.current - 1) else Stay(s)
  }

  /** Going forward and then back from any slide but the last restores it. */
  lemma NextThenPrev(s: State, n: nat)
    requires 0 <= s.current < n - 1
    ensures PrevSlide(NextSlide(s, n).state, n).state == s
  {
  }

  /** Going back and then forward from any slide but the first restores it. */
  lemma PrevThenNext(s: State, n: nat)
    requires 0 < s.current < n
    ensures NextSlide(PrevSlide(s, n).state, n).state == s
  {
  }
}
