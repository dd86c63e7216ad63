# Slide navigation controller, modelled in Dafny

The presentation script (`script.js`) drives a fixed deck of slides from
several inputs. It keeps one navigation cell, `currentSlide`, and a constant
slide count (nine in the shipped deck, a parameter `n` here). Dot clicks,
button clicks, keys, touch swipes and settled mouse-wheel bursts all go
through three operations: `goToSlide`, `nextSlide` and `prevSlide`. A
settled scroll is the one exception: it writes the index directly. After
every change, `updateUI` recomputes the counter, the progress bar, the dots
and the two buttons.

The model is functional. Each input is an `Event`. `Input.Step` maps a
state and an event to an `Outcome`, which holds three things:

- the new index;
- whether a scroll-into-view was requested;
- whether the indicators were refreshed.

`Indicators.Render` is the view that `updateUI` writes. `Debounce` models
the cancel-and-reschedule timers over a trace of event timestamps.

Modules:

- `Wrappers`: `Option`.
- `Decimal`: integer to decimal text, as a template literal prints integers up to 2^53 in magnitude, and its parser.
- `Navigation`: `State`, `Outcome`, and goto/next/prev.
- `Indicators`: `updateUI` and `createNavDots`.
- `Input`: events, the per-input handlers, `Step` and `Run`.
- `Debounce`: which timer callbacks fire.

The wheel callback acts on the last wheel event's `deltaY` alone; the deltas
of a burst are not summed (script.js:159-167). `Debounce.WheelBurstNotSummed`
shows a burst whose summed delta points forward but which goes back one slide.

## Model

| member | source | states |
|---|---|---|
| Navigation.GoToSlide | script.js:47-53 | a scroll is requested exactly when `0 <= index < n`, and then the index becomes `index` and the UI refreshes; any other index leaves the state unchanged with no scroll and no refresh; the range invariant is kept |
| Navigation.NextSlide | script.js:56-60 | from a valid slide other than the last it advances by exactly one and scrolls; on the last slide it is a no-op (no wrap); the range invariant is kept |
| Navigation.PrevSlide | script.js:63-67 | from a valid slide other than the first it goes back by exactly one and scrolls; on slide 0 it is a no-op (no wrap); the range invariant is kept |
| Navigation.NextThenPrev | script.js:56-67 | next then prev from any slide but the last restores the index |
| Navigation.PrevThenNext | script.js:56-67 | prev then next from any slide but the first restores the index |
| Decimal.IntRoundTrip | script.js:28 | the decimal text of a number parses back to that number, so the printed number determines the value |
| Indicators.CounterText | script.js:28 | the counter text is the two numbers, spelled as JavaScript prints integers (no leading zero, a minus sign for negatives), joined by " / "; it parses back to exactly the pair `(current+1, n)` |
| Indicators.Render | script.js:26-44 | the counter is the text `CounterText(current, n)`, "{current+1} / {n}", which reads `(current+1, n)`; the progress fraction is `(current+1, n)`; there are `n` dots and dot `k` is active iff `k == current`; prev is disabled iff `current == 0`; next is disabled iff `current == n-1`; each button is dimmed (opacity 0.5) iff it is disabled |
| Indicators.CountDotRow | script.js:35-37 | a dot row has exactly one active dot when the index names a slide, and none otherwise |
| Indicators.ViewConsistent | script.js:26-44 | on a valid state exactly one dot is active, the current one; the progress fraction lies in `(0, n]` and is full exactly when next is disabled |
| Indicators.CreateNavDots | script.js:15-23 | the start-up dot row (dot 0 active) equals the dot row `updateUI` renders for the initial state |
| Indicators.InitialViewConsistent | script.js:189-191 | the initial index 0 is valid; its view has one active dot, its counter text is exactly "1 / " followed by the numeral of `n`, disables prev, and disables next iff `n == 1` |
| Indicators.GoToShowsSlide | script.js:47-53 | after `goToSlide(i)` with a valid `i`, the counter text is "{i+1} / {n}" and reads `(i+1, n)` and dot `i` is the single active dot; an invalid `i` leaves the whole view unchanged |
| Input.RoundRatio | script.js:76 | the result `r` is the nearest integer to `offset/height`, halves rounded up: `(2r-1)h <= 2*offset < (2r+1)h` |
| Input.RoundRatioUnique | script.js:76 | any integer within half a height of the ratio is the rounding result |
| Input.RoundRatioExact | script.js:74-76 | an offset of exactly `i` heights rounds to `i` |
| Input.SettledSlide | script.js:74-76 | a positive height yields the rounded slide; a zero height (NaN or infinite ratio) yields none |
| Input.OnScrollSettled | script.js:73-81 | never requests a scroll; the state changes iff the rounded slide is valid and differs from the current one, and then it becomes that slide; the UI refreshes iff the state changes; the range invariant is kept |
| Input.OnKey | script.js:86-100 | ArrowDown, ArrowRight and Space act as next; ArrowUp and ArrowLeft act as prev; Home acts as goto 0; End acts as goto `n-1`; any other key changes nothing |
| Input.OnSwipe | script.js:142-155 | with `diff = startY - endY`: `|diff| <= 50` is a no-op, `diff > 50` acts as next, `diff < -50` acts as prev |
| Input.OnWheel | script.js:161-167 | a positive delta acts as next, a negative one as prev, and zero does nothing |
| Input.Step | script.js:20-168 | a dot click `GoTo(i)` is `goToSlide(i)`, the next button is `nextSlide` and the prev button is `prevSlide`; a key, a swipe, a settled wheel burst and a settled scroll go to the keydown, touch-end, wheel and scroll-settle handlers (`OnKey`, `OnSwipe`, `OnWheel`, `OnScrollSettled`); every event keeps the index in `[0, n)`; every state change refreshes the UI; a settled scroll never requests a scroll; every other event scrolls exactly when it refreshes |
| Input.RunPreservesRange | script.js:11-12 | no sequence of events moves the index out of `[0, n)` |
| Input.RepeatedNext | script.js:56-60 | `k` presses of next from slide 0 reach `min(k, n-1)`, so the index saturates and never wraps |
| Input.StepMovesByOne | script.js:56-67 | buttons, arrow/space keys, swipes and wheel bursts move the index by at most one |
| Input.NoFeedbackLoop | script.js:47-81 | after `goToSlide(i)`, the scroll-settle callback at `i` heights is a no-op, so the two paths do not oscillate |
| Input.SettleOnCurrentIsNoOp | script.js:74-80 | a settle at exactly the current slide's offset changes nothing and asks for nothing |
| Input.NineSlideScenario | script.js:86-155 | with nine slides, starting at 0: End goes to 8, Home to 0, an 80-unit upward swipe to 1, and a 20-unit swipe changes nothing; on slide 8 the counter reads "9 / 9", next is disabled and prev is not |
| Debounce.Fires | script.js:71-73 | event `k`'s callback runs iff it is the last event or the next one arrives at least the delay later; on timestamps in arrival order, iff no later event arrives before its timer is due |
| Debounce.FiredFrom | script.js:70-73 | lists, in increasing order, exactly the events whose timers are not cancelled by a later event within the delay, and always includes the last event |
| Debounce.Settled | script.js:70-82 | exactly the items of the events whose callbacks fire, each once, in arrival order; a nonempty trace always ends with the last event's callback |
| Debounce.BurstFiresLast | script.js:71-73 | within a burst, only the last event's timer fires |
| Debounce.SettledBurst | script.js:71-83 | a burst settles into exactly one callback, the last event's |
| Debounce.Superseded | script.js:71-73 | an event followed within the delay by another has no callback of its own |
| Debounce.WheelBurstActsOnLast | script.js:158-168 | a wheel burst has the effect of its last event's delta alone |
| Debounce.WheelBurstNotSummed | script.js:159-167 | deltas 120, 120, -3 in one burst go back a slide, although their sum is positive |
| Debounce.ScrollBurstReconcilesOnce | script.js:70-83 | a burst of scroll events reconciles exactly once |

## Left out

- DOM lookups and class/style writes (script.js:2-9, 17-21, 32). They appear only through the `View` record.
- The progress bar's percentage is floating point (script.js:31-32). It is kept as the fraction `(current+1, n)`.
- The smooth `scrollIntoView` animation (script.js:50) is only the `scroll` flag of an `Outcome`.
- Real timers (script.js:70-73, 158-161) are modelled as timestamps. A callback fires when the next event of its kind arrives at least the delay later, or when no event follows. When the next event arrives exactly at the deadline, the model lets the timer win.
- A settle event's offset and height stand for the values read when the timer fires (script.js:74-75).
- JavaScript numbers are doubles: integers above 2^53 are not exact and magnitudes of 10^21 or more print in exponent form. The counter text (`Decimal.IntToString`) is plain digits for every integer, which matches the script for any realistic slide count.
- A `Swipe` stands for one finger's own start and end. The script keeps only the latest `touchstart` position (script.js:130-139), so with several fingers down it compares one touch's start with another touch's end; the model does not cover that pairing.
- Fractional scroll offsets, touch coordinates and wheel deltas are integers here. Only their rounding, differences and signs matter.
- The `preventDefault` calls in the key handler (script.js:88-98) and the extra Space listener (script.js:194-198) do not affect the index.
- Theme toggling and its `localStorage` persistence (script.js:107-127) are storage I/O around a boolean flip, outside the navigation core.
- The IntersectionObserver fade-in (script.js:171-187), the double-click fullscreen toggle (script.js:208-214), the hover indicators (script.js:217-247), the polyfill injection (script.js:201-205) and the console output (script.js:249-255) are cosmetic effects or browser APIs.
