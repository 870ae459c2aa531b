/** The project carousel: one dot per slide, the dot of the slide scrolled to
    marked active, and the arrows disabled at either end. */
module Carousel {

  /** Card width plus gap, in pixels. */
  const SlideWidth: real := 340.0

  /** Pixels from either end within which an arrow is disabled. */
  const EdgeSlack: real := 10.0

  /** JavaScript's `Math.round`: the nearest integer, halves rounded up. */
  function Round(x: real): (n: int)
    ensures n as real - 0.5 <= x < n as real + 0.5
  {
    (x + 0.5).Floor
  }

  /** The index of the dot to mark for a horizontal scroll offset. */
  function ActiveIndex(scrollLeft: real): int
  {
    Round(scrollLeft / SlideWidth)
  }

  /** The dot index is a real dot, 0 to slideCount - 1, exactly when the
      scroll offset lies within half a slide of the first to the last slide. */
  lemma ActiveIndexInRange(slideCount: nat, scrollLeft: real)
    ensures 0 <= ActiveIndex(scrollLeft) < slideCount <==>
      -0.5 * SlideWidth <= scrollLeft < (slideCount as real - 0.5) * SlideWidth
  {
    var q := scrollLeft / SlideWidth;
    assert scrollLeft == q * SlideWidth;
    var n := ActiveIndex(scrollLeft);
    assert n as real - 0.5 <= q < n as real + 0.5;
  }

  /** Dot creation: one dot per slide, only the first one active. */
  method CreateDots(slideCount: nat) returns (dots: seq<bool>)
    ensures |dots| == slideCount
    ensures forall i :: 0 <= i < |dots| ==> (dots[i] <==> i == 0)
  {
    dots := [];
    var i := 0;
    while i < slideCount
      invariant 0 <= i <= slideCount && |dots| == i
      invariant forall j :: 0 <= j < i ==> (dots[j] <==> j == 0)
    {
      dots := dots + [i == 0];
      i := i + 1;
    }
  }

  /** The carousel's controls: the dots' `active` flags and the arrows'
      `disabled` flags. */
  class CarouselView {
    const dots: array<bool>
    var prevDisabled: bool
    var nextDisabled: bool

    /** Page load: one dot per slide is created (only the first marked),
        then the state is updated once from the starting scroll position. */
    constructor (slideCount: nat, scrollLeft: real, scrollWidth: real, clientWidth: real)
      ensures dots.Length == slideCount && fresh(dots)
      ensures forall i :: 0 <= i < dots.Length ==> (dots[i] <==> i == ActiveIndex(scrollLeft))
      ensures prevDisabled <==> scrollLeft <= EdgeSlack
      ensures nextDisabled <==> scrollLeft >= scrollWidth - clientWidth - EdgeSlack
    {
      var created := CreateDots(slideCount);
      dots := new bool[slideCount](i requires 0 <= i < slideCount => created[i]);
      new;
      UpdateState(scrollLeft, scrollWidth, clientWidth);
    }

    /** updateState: the dot at the rounded slide index is active and every
        other dot is not; the back arrow is disabled within 10 px of the
        start, the forward arrow within 10 px of the end. */
    method UpdateState(scrollLeft: real, scrollWidth: real, clientWidth: real)
      modifies this, dots
      ensures forall i :: 0 <= i < dots.Length ==> (dots[i] <==> i == ActiveIndex(scrollLeft))
      ensures forall i, j :: 0 <= i < dots.Length && 0 <= j < dots.Length && dots[i] && dots[j] ==> i == j
      ensures prevDisabled <==> scrollLeft <= EdgeSlack
      ensures nextDisabled <==> scrollLeft >= scrollWidth - clientWidth - EdgeSlack
    {
      var activeIndex := ActiveIndex(scrollLeft);
      var i := 0;
      while i < dots.Length
        invariant 0 <= i <= dots.Length
        invariant forall j :: 0 <= j < i ==> (dots[j] <==> j == activeIndex)
      {
        dots[i] := i == activeIndex;
        i := i + 1;
      }
      prevDisabled := scrollLeft <= EdgeSlack;
      nextDisabled := scrollLeft >= scrollWidth - clientWidth - EdgeSlack;
    }
  }
}
