/** The cancel-and-reschedule timers of the presentation script. Each scroll
    (or wheel) event clears the pending timer and starts a new one; the
    callback runs only when no further event of its kind arrives before the
    delay has elapsed. Over a trace of event timestamps this decides, for
    each event, whether its callback fires. A next event arriving exactly
    when the timer is due is taken to come after the callback. */
module Debounce {

  import opened Navigation
  import opened Input

  /** Quiet time, in milliseconds, before a scroll is reconciled. */
  const ScrollDelay: nat := 100

  /** Quiet time, in milliseconds, before a wheel burst acts. */
  const WheelDelay: nat := 50

  /** Timestamps in arrival order. */
  predicate NonDecreasing(times: seq<int>) {
    forall i, j :: 0 <= i <= j < |times| ==> times[i] <= times[j]
  }

  /** The callback scheduled by event `k` runs: no later event cancels it.
      Only the next event can cancel it; on timestamps in arrival order this
      means no later event at all arrives before the timer is due. */
  predicate Fires(times: seq<int>, k: nat, delay: nat)
    requires k < |times|
    ensures NonDecreasing(times) ==>
      (Fires(times, k, delay) <==> forall j :: k < j < |times| ==> times[j] >= times[k] + delay)
  {
    k == |times| - 1 || times[k + 1] - times[k] >= delay
  }

  /** Every event arrives before the previous one's timer is due. */
  predicate IsBurst(times: seq<int>, delay: nat) {
    forall k :: 0 <= k < |times| - 1 ==> times[k + 1] - times[k] < delay
  }

  /** The indices, from `k` on, of the events whose callbacks fire, in
      order. */
  function FiredFrom(times: seq<int>, delay: nat, k: nat): (r: seq<nat>)
    requires k <= |times|
    ensures forall j :: j in r <==> k <= j < |times| && Fires(times, j, delay)
    ensures forall a, b :: 0 <= a < b < |r| ==> r[a] < r[b]
    ensures forall a :: 0 <= a < |r| ==> k <= r[a] < |times|
    ensures |r| <= |times| - k
    ensures k < |times| ==> |r| > 0 && r[|r| - 1] == |times| - 1
    decreases |times| - k
  {
    if k == |times| then []
    else if Fires(times, k, delay) then [k] + FiredFrom(times, delay, k + 1)
    else FiredFrom(times, delay, k + 1)
  }

  /** The items whose callbacks fire, in arrival order. */
  function Settled<T>(items: seq<T>, times: seq<int>, delay: nat): (r: seq<T>)
    requires |items| == |times|
    ensures |r| == |FiredFrom(times, delay, 0)| <= |items|
    ensures forall a :: 0 <= a < |r| ==> r[a] == items[FiredFrom(times, delay, 0)[a]]
    ensures |items| > 0 ==> |r| > 0 && r[|r| - 1] == items[|items| - 1]
  {
    Pick(items, FiredFrom(times, delay, 0))
  }

  function Pick<T>(items: seq<T>, idx: seq<nat>): (r: seq<T>)
    requires forall a :: 0 <= a < |idx| ==> idx[a] < |items|
    ensures |r| == |idx|
    ensures forall a :: 0 <= a < |idx| ==> r[a] == items[idx[a]]
  {
    if |idx| == 0 then [] else [items[idx[0]]] + Pick(items, idx[1..])
  }

  /** Within a burst only the last event's callback fires. */
  lemma {:induction false} BurstFiresLast(times: seq<int>, delay: nat, k: nat)
    requires k < |times| && IsBurst(times, delay)
    ensures FiredFrom(times, delay, k) == [|times| - 1]
    decreases |times| - k
  {
    if k < |times| - 1 {
      assert !Fires(times, k, delay);
      BurstFiresLast(times, delay, k + 1);
    }
  }

  /** A burst settles into exactly one callback, the last event's. */
  lemma SettledBurst<T>(items: seq<T>, times: seq<int>, delay: nat)
    requires |items| == |times| > 0 && IsBurst(times, delay)
    ensures Settled(items, times, delay) == [items[|items| - 1]]
  {
    BurstFiresLast(times, delay, 0);
  }

  /** An event followed within the delay by another has no callback of its
      own: a burst cut short by a new event reconciles nothing. */
  lemma Superseded(times: seq<int>, delay: nat, k: nat)
    requires k + 1 < |times| && times[k + 1] - times[k] < delay
    ensures k !in FiredFrom(times, delay, 0)
  {
  }

  /** A burst of wheel events moves as its last event's delta says, whatever
      the earlier deltas were: the deltas are not accumulated. */
  lemma WheelBurstActsOnLast(s: State, n: nat, deltas: seq<int>, times: seq<int>)
    requires |deltas| == |times| > 0 && IsBurst(times, WheelDelay)
    ensures Run(s, n, Settled(seq(|deltas|, i requires 0 <= i < |deltas| => WheelSettled(deltas[i])), times, WheelDelay))
         == Step(s, n, WheelSettled(deltas[|deltas| - 1])).state
  {
    var events := seq(|deltas|, i requires 0 <= i < |deltas| => WheelSettled(deltas[i]));
    SettledBurst(events, times, WheelDelay);
  }

  /** Three wheel notches in one burst, two down and a last small one up,
      go back a slide although the summed delta points forward. */
  lemma WheelBurstNotSummed()
    ensures Run(State(4), 9, Settled([WheelSettled(120), WheelSettled(120), WheelSettled(-3)], [0, 10, 20], WheelDelay))
         == State(3)
  {
    SettledBurst([WheelSettled(120), WheelSettled(120), WheelSettled(-3)], [0, 10, 20], WheelDelay);
  }

  /** A burst of scroll events reconciles once, against the offset the
      viewport rests at when the last event's timer runs. */
  lemma ScrollBurstReconcilesOnce(s: State, n: nat, times: seq<int>, offset: int, height: nat)
    requires |times| > 0 && IsBurst(times, ScrollDelay)
    ensures Settled(seq(|times|, _ => ScrollSettled(offset, height)), times, ScrollDelay)
         == [ScrollSettled(offset, height)]
  {
    SettledBurst(seq(|times|, _ => ScrollSettled(offset, height)), times, ScrollDelay);
  }
}
