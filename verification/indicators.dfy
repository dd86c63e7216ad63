/** The indicators the presentation script derives from the current slide
    after every change (`updateUI`): the "k / n" counter, the progress bar,
    one dot per slide with the current one active, and the previous/next
    buttons, disabled and dimmed at either end. */
module Indicators {

  import opened Wrappers
  import opened Decimal
  import opened Navigation

  /** A button's inline opacity: '0.5' when dimmed, '1' otherwise. */
  datatype Opacity = Dimmed | Opaque

  /** Everything `updateUI` writes. The progress bar's floating-point
      percentage is kept as its fraction `(current + 1, n)`. */
  datatype View = View(
    counter: string,
    progress: (int, int),
    dots: seq<bool>,
    prevDisabled: bool,
    nextDisabled: bool,
    prevOpacity: Opacity,
    nextOpacity: Opacity)

  /** Index of the first blank in `t`, or `|t|` when there is none. */
  function IndexOfBlank(t: string): (i: nat)
    ensures i <= |t|
    ensures i < |t| ==> t[i] == ' '
    ensures forall j :: 0 <= j < i ==> t[j] != ' '
  {
    if |t| == 0 then 0 else if t[0] == ' ' then 0 else 1 + IndexOfBlank(t[1..])
  }

  /** Reads a counter text back into the pair of numbers it shows. */
  function ParseCounter(t: string): (r: Option<(int, int)>)
    ensures r.Some? ==> ParseInt(t[..IndexOfBlank(t)]) == Some(r.value.0)
  {
    var i := IndexOfBlank(t);
    if i + 3 <= |t| && t[i..i + 3] == " / " then
      match (ParseInt(t[..i]), ParseInt(t[i + 3..]))
      case (Some(a), Some(b)) => Some((a, b))
      case _ => None
    else
      None
  }

  /** The counter text "{current + 1} / {n}": the two numbers spelled as
      JavaScript prints them, joined by " / ". It shows exactly the
      one-based slide number and the slide count: the text parses back to
      that pair. */
  function CounterText(current: int, n: nat): (t: string)
    ensures t == IntToString(current + 1) + " / " + IntToString(n)
    ensures ParseCounter(t) == Some((current + 1, n))
  {
    var left := IntToString(current + 1);
    var right := IntToString(n);
    var t := left + " / " + right;
    var i := IndexOfBlank(t);
    assert t[|left|] == ' ';
    assert forall j :: 0 <= j < |left| ==> t[j] == left[j];
    assert i == |left|;
    assert t[..i] == left;
    assert t[i..i + 3] == " / ";
    assert t[i + 3..] == right;
    IntRoundTrip(current + 1);
    IntRoundTrip(n);
    t
  }

  /** The dot row: `n` dots, the one at `active` marked. */
  function DotRow(n: nat, active: int): (dots: seq<bool>)
    ensures |dots| == n
    ensures forall k :: 0 <= k < n ==> (dots[k] <==> k == active)
  {
    seq(n, k => k == active)
  }

  /** Number of marked dots. */
  function CountActive(dots: seq<bool>): nat
    decreases |dots|
  {
    if |dots| == 0 then 0
    else CountActive(dots[..|dots| - 1]) + (if dots[|dots| - 1] then 1 else 0)
  }

  /** A dot row has one marked dot when the active index names a slide, and
      none otherwise. */
  lemma {:induction false} CountDotRow(n: nat, active: int)
    ensures CountActive(DotRow(n, active)) == if 0 <= active < n then 1 else 0
  {
    if n > 0 {
      var dots := DotRow(n, active);
      assert dots[..n - 1] == DotRow(n - 1, active);
      CountDotRow(n - 1, active);
    }
  }

  /** The view `updateUI` produces for state `s` with `n` slides. */
  function Render(s: State, n: nat): (v: View)
    ensures v.counter == CounterText(s.current, n)
    ensures ParseCounter(v.counter) == Some((s.current + 1, n))
    ensures v.progress == (s.current + 1, n)
    ensures |v.dots| == n
    ensures forall k :: 0 <= k < n ==> (v.dots[k] <==> k == s.current)
    ensures v.prevDisabled <==> s.current == 0
    ensures v.nextDisabled <==> s.current == n - 1
    ensures v.prevOpacity == Dimmed <==> v.prevDisabled
    ensures v.nextOpacity == Dimmed <==> v.nextDisabled
  {
    var prevOff := s.current == 0;
    var nextOff := s.current == n - 1;
    View(
      CounterText(s.current, n),
      (s.current + 1, n),
      DotRow(n, s.current),
      prevOff,
      nextOff,
      if prevOff then Dimmed else Opaque,
      if nextOff then Dimmed else Opaque)
  }

  /** On a valid state exactly one dot is active, the one of the current
      slide, and the progress fraction is full exactly on the last slide,
      where the next button is disabled. */
  lemma ViewConsistent(s: State, n: nat)
    requires InRange(s, n)
    ensures CountActive(Render(s, n).dots) == 1
    ensures Render(s, n).dots[s.current]
    ensures 0 < Render(s, n).progress.0 <= Render(s, n).progress.1 == n
    ensures Render(s, n).progress.0 == n <==> Render(s, n).nextDisabled
  {
    CountDotRow(n, s.current);
  }

  /** The dot row `createNavDots` builds at start-up: slide 0's dot marked. */
  method CreateNavDots(n: nat) returns (dots: seq<bool>)
    ensures dots == Render(Initial(), n).dots
  {
    dots := [];
    var i := 0;
    while i < n
      invariant 0 <= i <= n
      invariant dots == DotRow(i, 0)
    {
      dots := dots + [i == 0];
      i := i + 1;
    }
  }

  /** The start-up page is consistent: slide 0 is valid, its view has dot 0
      as its single active dot, shows "1 / n" and disables the previous
      button. */
  lemma InitialViewConsistent(n: nat)
    requires n > 0
    ensures InRange(Initial(), n)
    ensures CountActive(Render(Initial(), n).dots) == 1
    ensures ParseCounter(Render(Initial(), n).counter) == Some((1, n))
    ensures Render(Initial(), n).counter == "1 / " + IntToString(n)
    ensures Render(Initial(), n).prevDisabled
    ensures Render(Initial(), n).nextDisabled <==> n == 1
  {
    ViewConsistent(Initial(), n);
    assert IntToString(1) == "1";
  }

  /** A jump to a valid slide `i` reads "{i + 1} / {n}" with dot `i` the
      only active one; a jump anywhere else leaves the whole view as it was. */
  lemma GoToShowsSlide(s: State, n: nat, i: int)
    ensures 0 <= i < n ==> ParseCounter(Render(GoToSlide(s, n, i).state, n).counter) == Some((i + 1, n))
    ensures 0 <= i < n ==> Render(GoToSlide(s, n, i).state, n).counter == IntToString(i + 1) + " / " + IntToString(n)
    ensures 0 <= i < n ==> CountActive(Render(GoToSlide(s, n, i).state, n).dots) == 1
    ensures 0 <= i < n ==> Render(GoToSlide(s, n, i).state, n).dots[i]
    ensures !(0 <= i < n) ==> Render(GoToSlide(s, n, i).state, n) == Render(s, n)
  {
    if 0 <= i < n {
      ViewConsistent(State(i), n);
    }
  }
}
