/** The stat counters: once a stat scrolls into view its number counts up from
    0 on a 16 ms timer and settles on the target. */
module Counter {
  import opened Wrappers

  /** What a counter shows: a whole number, with or without a trailing `+`. */
  datatype Label = Label(count: int, plus: bool)

  /** Milliseconds between two timer ticks. */
  const TickMillis: real := 16.0

  /** The label under the counter that suppresses the `+`. */
  const InternshipsLabel: string := "Internships"

  /** The amount one tick adds: `target / (duration / 16)`. */
  function Increment(target: int, duration: real): real
    requires duration > 0.0
  {
    target as real / (duration / TickMillis)
  }

  /** The running counter: the timer's closure state and the text it writes. */
  class CounterAnimation {
    const target: int
    const duration: real
    const increment: real
    /** The label under the counter reads "Internships". */
    const internships: bool
    var start: real
    /** The text last written; None while the original text still shows. */
    var shown: Option<Label>
    /** The interval timer has not been cleared. */
    var running: bool
    /** Ticks run so far; while the timer runs, fewer than duration/16 for a
        target of at least 0. */
    ghost var ticks: nat

    ghost predicate Valid()
      reads this
    {
      duration > 0.0 && increment == Increment(target, duration) &&
      start == ticks as real * increment &&
      (running ==> ticks == 0 || start < target as real) &&
      (running && target >= 0 ==> ticks as real * TickMillis < duration) &&
      (running && ticks > 0 ==> shown == Some(Label(start.Floor, !internships))) &&
      (!running ==> ticks > 0 && start >= target as real && shown == Some(Label(target, !internships)))
    }

    /** animateCounter: start at 0, fix the increment, read the label, start the timer. */
    constructor (target: int, duration: real, caption: string)
      requires duration > 0.0
      ensures Valid()
      ensures this.target == target && this.duration == duration
      ensures internships <==> caption == InternshipsLabel
      ensures start == 0.0 && running && shown == None && ticks == 0
    {
      this.target := target;
      this.duration := duration;
      increment := target as real / (duration / TickMillis);
      internships := caption == InternshipsLabel;
      start := 0.0;
      shown := None;
      running := true;
      ticks := 0;
    }

    /** One timer tick: add the increment and show its floor; once the target
        is reached show the target itself and clear the timer. */
    method Tick()
      requires Valid() && running
      modifies this
      ensures Valid()
      ensures start == old(start) + increment && ticks == old(ticks) + 1
      ensures running <==> start < target as real
      ensures running ==> shown == Some(Label(start.Floor, !internships))
      ensures !running ==> shown == Some(Label(target, !internships))
    {
      start := start + increment;
      ticks := ticks + 1;
      if target >= 0 {
        CounterFinishes(target, duration, ticks);
      }
      shown := Some(Label(start.Floor, !internships));
      if start >= target as real {
        shown := Some(Label(target, !internships));
        running := false;
      }
    }
  }

  /** For a target of at least 0, any tick numbered k with 16k at least the
      duration has reached the target: the timer is cleared after at most
      ⌈duration/16⌉ ticks (125 for the default 2000 ms). */
  lemma CounterFinishes(target: int, duration: real, k: nat)
    requires target >= 0 && duration > 0.0
    ensures k as real * TickMillis >= duration ==> k as real * Increment(target, duration) >= target as real
  {
    if k as real * TickMillis < duration {
      return;
    }
    var t := target as real;
    var q := duration / TickMillis;
    assert q > 0.0;
    assert k as real >= q;
    var inc := t / q;
    assert inc * q == t;
    assert inc >= 0.0;
    calc {
      k as real * inc;
    >= { MulMonotone(q, k as real, inc); }
      q * inc;
    ==
      t;
    }
  }

  lemma MulMonotone(a: real, b: real, c: real)
    requires a <= b && c >= 0.0
    ensures a * c <= b * c
  {
    assert b * c - a * c == (b - a) * c;
  }
}
