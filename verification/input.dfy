/** The input sources of the presentation script and how each reaches the
    navigation operations: clicks on dots and buttons, keys, touch swipes,
    settled wheel bursts and settled scrolls. Debouncing is modelled
    separately (module Debounce): the events here are the ones that fire. */
module Input {

  import opened Wrappers
  import opened Navigation
  import opened Indicators
  import Decimal

  /** Vertical travel, in screen units, a touch must exceed to be a swipe. */
  const SwipeThreshold: int := 50

  /** One input, as delivered to the controller. */
  datatype Event =
    | GoTo(index: int)                        // a click on dot `index`
    | Next                                    // a click on the next button
    | Prev                                    // a click on the previous button
    | ScrollSettled(offset: int, height: nat) // scrolling has been quiet for the delay
    | Key(key: string)                        // a keydown, by its `key` value
    | Swipe(startY: int, endY: int)           // a touch from `startY` to `endY`
    | WheelSettled(deltaY: int)               // the last wheel event of a quiet burst

  /** Keys that act as "next": ArrowDown, ArrowRight and Space. */
  const NextKeys: set<string> := {"ArrowDown", "ArrowRight", " "}

  /** Keys that act as "previous". */
  const PrevKeys: set<string> := {"ArrowUp", "ArrowLeft"}

  /** `Math.round(offset / height)` for a positive height: the nearest
      integer, halves rounded up. */
  function RoundRatio(offset: int, height: int): (r: int)
    requires height > 0
    ensures (2 * r - 1) * height <= 2 * offset < (2 * r + 1) * height
  {
    var q := (2 * offset + height) / (2 * height);
    var m := (2 * offset + height) % (2 * height);
    assert 2 * offset + height == 2 * height * q + m;
    assert (2 * q - 1) * height == 2 * height * q - height;
    assert (2 * q + 1) * height == 2 * height * q + height;
    q
  }

  /** Multiplying by a positive height preserves strict order, so a
      strict order between products gives one between the factors. */
  lemma MulCancel(a: int, b: int, h: int)
    requires h > 0 && a * h < b * h
    ensures a < b
  {
    assert b * h - a * h == (b - a) * h;
  }

  /** The rounding is the unique integer within half a height of the ratio. */
  lemma RoundRatioUnique(offset: int, height: int, q: int)
    requires height > 0
    requires (2 * q - 1) * height <= 2 * offset < (2 * q + 1) * height
    ensures RoundRatio(offset, height) == q
  {
    var r := RoundRatio(offset, height);
    MulCancel(2 * r - 1, 2 * q + 1, height);
    MulCancel(2 * q - 1, 2 * r + 1, height);
  }

  /** An offset that is an exact multiple of the height rounds to that multiple. */
  lemma RoundRatioExact(i: int, height: int)
    requires height > 0
    ensures RoundRatio(i * height, height) == i
  {
    assert (2 * i - 1) * height == 2 * (i * height) - height;
    assert (2 * i + 1) * height == 2 * (i * height) + height;
    RoundRatioUnique(i * height, height, i);
  }

  /** The slide a settled scroll points at. With a zero height the ratio is
      NaN or an infinity, which no range check accepts: no slide. */
  function SettledSlide(offset: int, height: nat): (r: Option<int>)
    ensures r.Some? <==> height > 0
    ensures r.Some? ==> (2 * r.value - 1) * height <= 2 * offset < (2 * r.value + 1) * height
  {
    if height > 0 then Some(RoundRatio(offset, height)) else None
  }

  /** The scroll-settle callback: adopt the slide the viewport rests on when
      it is a different, valid slide. It never asks for a scroll (the
      viewport is already there) and refreshes the indicators only when the
      index changes. */
  function OnScrollSettled(s: State, n: nat, offset: int, height: nat): (r: Outcome)
    ensures !r.scroll
    ensures r.refresh <==> r.state != s
    ensures r.state != s <==>
      height > 0 && 0 <= RoundRatio(offset, height) < n && RoundRatio(offset, height) != s.current
    ensures r.state != s ==> r.state == State(RoundRatio(offset, height))
    ensures InRange(s, n) ==> InRange(r.state, n)
  {
    match SettledSlide(offset, height)
    case Some(k) =>
      if k != s.current && 0 <= k && k < n then Outcome(State(k), false, true) else Stay(s)
    case None => Stay(s)
  }

  /** The keydown handler's table. */
  function OnKey(s: State, n: nat, key: string): (r: Outcome)
    ensures key in NextKeys ==> r == NextSlide(s, n)
    ensures key in PrevKeys ==> r == PrevSlide(s, n)
    ensures key == "Home" ==> r == GoToSlide(s, n, 0)
    ensures key == "End" ==> r == GoToSlide(s, n, n - 1)
    ensures key !in NextKeys + PrevKeys + {"Home", "End"} ==> r == Stay(s)
  {
    if key == "ArrowDown" || key == "ArrowRight" || key == " " then NextSlide(s, n)
    else if key == "ArrowUp" || key == "ArrowLeft" then PrevSlide(s, n)
    else if key == "Home" then GoToSlide(s, n, 0)
    else if key == "End" then GoToSlide(s, n, n - 1)
    else Stay(s)
  }

  /** The touch-end handler: an upward swipe longer than the threshold goes
      forward, a downward one goes back, anything shorter is a tap. */
  function OnSwipe(s: State, n: nat, startY: int, endY: int): (r: Outcome)
    ensures -SwipeThreshold <= startY - endY <= SwipeThreshold ==> r == Stay(s)
    ensures startY - endY > SwipeThreshold ==> r == NextSlide(s, n)
    ensures startY - endY < -SwipeThreshold ==> r == PrevSlide(s, n)
  {
    var diff := startY - endY;
    if Abs(diff) > SwipeThreshold then
      if diff > 0 then NextSlide(s, n) else PrevSlide(s, n)
    else
      Stay(s)
  }

  function Abs(x: int): (r: nat)
    ensures r == x || r == -x
  {
    if x < 0 then -x else x
  }

  /** The settled wheel callback: the sign of the delta picks the direction. */
  function OnWheel(s: State, n: nat, deltaY: int): (r: Outcome)
    ensures deltaY > 0 ==> r == NextSlide(s, n)
    ensures deltaY < 0 ==> r == PrevSlide(s, n)
    ensures deltaY == 0 ==> r == Stay(s)
  {
    if deltaY > 0 then NextSlide(s, n) else if deltaY < 0 then PrevSlide(s, n) else Stay(s)
  }

  /** The controller: one event, one outcome. The range invariant holds
      across every event; every state change refreshes the indicators; only
      a settled scroll refreshes without asking for a scroll. */
  function Step(s: State, n: nat, e: Event): (r: Outcome)
    ensures e.GoTo? ==> r == GoToSlide(s, n, e.index)
    ensures e.Next? ==> r == NextSlide(s, n)
    ensures e.Prev? ==> r == PrevSlide(s, n)
    ensures e.ScrollSettled? ==> r == OnScrollSettled(s, n, e.offset, e.height)
    ensures e.Key? ==> r == OnKey(s, n, e.key)
    ensures e.Swipe? ==> r == OnSwipe(s, n, e.startY, e.endY)
    ensures e.WheelSettled? ==> r == OnWheel(s, n, e.deltaY)
    ensures InRange(s, n) ==> InRange(r.state, n)
    ensures r.state != s ==> r.refresh
    ensures e.ScrollSettled? ==> !r.scroll
    ensures !e.ScrollSettled? ==> (r.scroll <==> r.refresh)
  {
    match e
    case GoTo(i) => GoToSlide(s, n, i)
    case Next => NextSlide(s, n)
    case Prev => PrevSlide(s, n)
    case ScrollSettled(offset, height) => OnScrollSettled(s, n, offset, height)
    case Key(k) => OnKey(s, n, k)
    case Swipe(startY, endY) => OnSwipe(s, n, startY, endY)
    case WheelSettled(deltaY) => OnWheel(s, n, deltaY)
  }

  /** The state after a sequence of events. */
  function Run(s: State, n: nat, events: seq<Event>): State
    decreases |events|
  {
    if |events| == 0 then s else Run(Step(s, n, events[0]).state, n, events[1..])
  }

  /** No sequence of inputs, however interleaved, takes the index out of
      range. */
  lemma {:induction false} RunPreservesRange(s: State, n: nat, events: seq<Event>)
    requires InRange(s, n)
    ensures InRange(Run(s, n, events), n)
    decreases |events|
  {
    if |events| > 0 {
      RunPreservesRange(Step(s, n, events[0]).state, n, events[1..]);
    }
  }

  /** Running two traces one after the other is running their concatenation. */
  lemma {:induction false} RunAppend(s: State, n: nat, a: seq<Event>, b: seq<Event>)
    ensures Run(s, n, a + b) == Run(Run(s, n, a), n, b)
    decreases |a|
  {
    if |a| > 0 {
      assert (a + b)[0] == a[0];
      assert (a + b)[1..] == a[1..] + b;
      RunAppend(Step(s, n, a[0]).state, n, a[1..], b);
    } else {
      assert a + b == b;
    }
  }

  /** Pressing "next" `k` times from the first slide reaches slide `k`, or
      stops on the last slide: the index saturates, it never wraps. */
  lemma {:induction false} RepeatedNext(n: nat, k: nat)
    requires n > 0
    ensures Run(Initial(), n, seq(k, _ => Next)) == State(if k < n then k else n - 1)
  {
    if k > 0 {
      var evs := seq(k, _ => Next);
      assert evs == seq(k - 1, _ => Next) + [Next];
      RepeatedNext(n, k - 1);
      RunAppend(Initial(), n, seq(k - 1, _ => Next), [Next]);
    }
  }

  /** A moving input (buttons, arrow keys, swipes, wheel) shifts the index
      by at most one slide. */
  lemma StepMovesByOne(s: State, n: nat, e: Event)
    requires InRange(s, n)
    requires e.Next? || e.Prev? || e.Swipe? || e.WheelSettled? || (e.Key? && e.key !in {"Home", "End"})
    ensures -1 <= Step(s, n, e).state.current - s.current <= 1
  {
  }

  /** After a jump to slide `i`, the viewport comes to rest at `i` heights
      and the scroll-settle callback that follows changes nothing: the two
      paths do not feed back into each other. */
  lemma NoFeedbackLoop(s: State, n: nat, i: int, height: nat)
    requires 0 <= i < n && height > 0
    ensures Step(Step(s, n, GoTo(i)).state, n, ScrollSettled(i * height, height)) == Stay(State(i))
  {
    RoundRatioExact(i, height);
  }

  /** A settled scroll exactly on the current slide is a no-op. */
  lemma SettleOnCurrentIsNoOp(s: State, n: nat, height: nat)
    requires height > 0
    ensures Step(s, n, ScrollSettled(s.current * height, height)) == Stay(s)
  {
    RoundRatioExact(s.current, height);
  }

  /** A walkthrough with nine slides: End goes to
      the last slide, Home back to the first, an 80-unit upward swipe
      advances one slide and a 20-unit one does nothing. On the last slide the
      counter reads "9 / 9", the next button is disabled and the previous
      one is not. */
  lemma NineSlideScenario()
    ensures Run(Initial(), 9, [Key("End")]) == State(8)
    ensures Render(Run(Initial(), 9, [Key("End")]), 9).nextDisabled
    ensures !Render(Run(Initial(), 9, [Key("End")]), 9).prevDisabled
    ensures Render(Run(Initial(), 9, [Key("End")]), 9).counter == "9 / 9"
    ensures Run(Initial(), 9, [Key("End"), Key("Home")]) == State(0)
    ensures Run(Initial(), 9, [Key("End"), Key("Home"), Swipe(300, 220)]) == State(1)
    ensures Run(Initial(), 9, [Key("End"), Key("Home"), Swipe(300, 220), Swipe(300, 280)]) == State(1)
  {
    var end := Step(Initial(), 9, Key("End")).state;
    assert end == State(8);
    var home := Step(end, 9, Key("Home")).state;
    assert home == State(0);
    var up := Step(home, 9, Swipe(300, 220)).state;
    assert up == State(1);
    assert Step(up, 9, Swipe(300, 280)).state == State(1);
    assert [Key("End"), Key("Home")][1..] == [Key("Home")];
    assert [Key("End"), Key("Home"), Swipe(300, 220)][1..] == [Key("Home"), Swipe(300, 220)];
    assert [Key("End"), Key("Home"), Swipe(300, 220), Swipe(300, 280)][1..]
        == [Key("Home"), Swipe(300, 220), Swipe(300, 280)];
    var v := Render(end, 9);
    assert v.nextDisabled && !v.prevDisabled;
    assert Decimal.IntToString(9) == "9";
  }
}
