/** The scroll-to-top button's visibility rule. */
module ScrollToTop {

  /** Scroll offset in pixels past which the button shows. */
  const ShowAfter: real := 300.0

  /** The button's opacity for a vertical scroll offset: "1" strictly past
      300 px, "0" otherwise. */
  function ButtonOpacity(scrollY: real): (opacity: string)
    ensures opacity == "1" <==> scrollY > ShowAfter
    ensures opacity == "0" <==> scrollY <= ShowAfter
  {
    if scrollY > ShowAfter then "1" else "0"
  }
}
