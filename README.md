# Portfolio page behaviour, modelled in Dafny

This project models the logic of a portfolio site's browser scripts. It leaves
the DOM, the clocks and the third-party libraries out and passes them in as
plain inputs.

- **Morph** (`morph.dfy`): the proximity morph of the hero shape in `morph.js`.
  A circle turns into a downward arrow as the pointer comes near. The
  `Animator` class holds the handler state: `currentT`, `targetT`, the pending
  frame, the bounds cache and the throttle time. Its methods are the
  pointer-move, pointer-leave, touch and animation-frame handlers. The clock
  value, the live bounding rectangle and the pointer coordinates are
  parameters. `requestAnimationFrame` is modelled by `queuedFrames`, a count of
  frame callbacks the browser holds. The class invariant says that count is
  never more than one. The shape-interpolation library is an opaque
  function that may throw. The `interpolate` entry point can also throw while
  it builds the interpolator. `Math.pow(r, 1.2)` is the field `curve`. It is
  constrained only to map [0, 1] into [0, 1] and to keep 0 and 1.
- **ContactForm** (`contact_form.dfy`): the submit handler's checks. It
  rejects any empty field first. Then the email must match
  `^[^\s@]+@[^\s@]+\.[^\s@]+$`. The pattern is proved equal to a plain
  description of the addresses it accepts. `\s` is the ECMAScript set of
  whitespace and line terminators.
- **Dock** (`dock.dfy`): the scroll handler. It picks the last section
  reached in document order and marks the dock item that links to it.
- **Counter** (`counter.dfy`): the stat counters. A 16 ms timer adds
  `target / (duration / 16)` to a running value and shows its floor. It stops
  on the target.
- **Carousel** (`carousel.dfy`): dot creation and `updateState`. That means
  the active dot and the two disabled arrows.
- **Theme** (`theme.dfy`), **ScrollToTop** (`scroll_top.dfy`), **Planets**
  (`planets.dfy`): the dark-theme toggle and its stored value, the
  scroll-to-top opacity rule, and the planet colour table.

Three points of `morph.js` that the model keeps as written:

- When the loop stops, `currentT` is not snapped to `targetT`. Only the path
  written then is the target's path (morph.js:124-135).
- The code declares `threshold = 0.005` but never reads it. The stop test
  uses the literal 0.001 (`Morph.StopDelta`).
- The two catch branches disagree at exactly 0.5. A frame's fallback shows
  the arrow there. The final render's fallback shows the circle.

## Model

| member | source | states |
|---|---|---|
| Morph.FallbackAt | morph.js:26-31 | the step interpolator returns one of its two paths; for distinct paths it returns the from-path exactly when t < 0.5 |
| Morph.Interpolate | morph.js:26-31 | the fallback interpolator never throws and answers with its step function |
| Morph.InitInterpolator | morph.js:33-48 | the fallback between circle and arrow is chosen exactly when the library is absent or throws while building; otherwise the library's interpolator, built with maxSegmentLength 4, is kept |
| Morph.FramePath | morph.js:114-121 | a frame writes the interpolator's path; when the call throws it writes a boundary path, the circle exactly when t < 0.5, and nothing escapes |
| Morph.FinalPath | morph.js:127-132 | the stopping frame writes the interpolator's path for the target; when the call throws it writes a boundary path, the arrow exactly when t > 0.5 |
| Morph.FallbackRendersBoundaries | morph.js:26-48 | with the fallback chosen at start-up, every frame and the final render show the circle below 0.5 and the arrow from 0.5 on |
| Morph.HalfwayCatchBranchesDisagree | morph.js:117-132 | when the interpolator throws at 0.5, a frame shows the arrow and the final render shows the circle |
| Morph.AlwaysThrowingRendersBoundaries | morph.js:114-132 | an interpolator that throws on every call only ever yields the circle or the arrow |
| Morph.InteractionRadiusPositive | morph.js:92 | the squared interaction radius of a measurable rectangle is positive |
| Morph.ProximityRatio | morph.js:83-95 | the ratio `max(0, 1 - d²/maxD²)` lies in [0, 1]; it is 1 exactly at the centre and 0 exactly at or beyond the interaction radius |
| Morph.TargetFor | morph.js:82-96 | the new target lies in [0, 1], is 1 at the centre and 0 at or beyond the radius |
| Morph.CentreGivesFullTarget | morph.js:83-96 | a pointer at the rectangle's centre gives target 1 |
| Morph.BeyondRadiusGivesZeroTarget | morph.js:87-96 | a pointer at distance at least 0.8·max(width, height) from the centre gives target 0 |
| Morph.HeroSurfaceScenario | morph.js:82-96 | on a 100×100 surface at the origin, (50, 50) gives target 1 and (150, 150) gives target 0 |
| Morph.EaseStep | morph.js:110-111 | one easing step leaves 0.6 of the distance to the target and never overshoots: the value stays between its old value and the target |
| Morph.EaseStepsDistance | morph.js:108-125 | after k frames toward a fixed target the distance is 0.6^k times the starting distance |
| Morph.SettlesWithinFifteenFrames | morph.js:108-135 | from values in [0, 1], the step seen by the fifteenth frame is within 0.001, so the loop stops by then |
| Morph.Animator.constructor | morph.js:33-73 | initial state: interpolator chosen, currentT = targetT = 0, no frame pending, empty bounds cache, throttle time 0 |
| Morph.Animator.GetCachedBounds | morph.js:58-70 | the live rectangle is read only when the cache is empty or older than 100 ms; otherwise the cached rectangle and its time stay; the rectangle returned is never older than 100 ms |
| Morph.Animator.PointerMove | morph.js:72-105 | within 4 ms of the last accepted move nothing changes; otherwise the time is stamped, the target is overwritten with the target for the pointer, and a frame is requested only if none is pending, so at most one is ever queued |
| Morph.Animator.PointerLeave | morph.js:138-145 | the target becomes exactly 0 whatever it was; at most one frame is queued |
| Morph.Animator.TouchMove | morph.js:157-167 | the first touch point acts as a pointer move; without one nothing changes |
| Morph.Animator.TouchEnd | morph.js:169-177 | touch end and touch cancel act exactly as a pointer leave |
| Morph.Animator.AnimationFrame | morph.js:107-136 | the value takes one easing step toward the unchanged target; the loop goes on exactly when the step before easing exceeded 0.001, else it writes the target's path and goes idle; the invariant keeps both values in [0, 1], at most one frame queued, and an idle loop settled within 0.001 showing the target's path |
| Morph.Clamp01 | morph.js:195 | the clamped value lies in [0, 1], equals t inside it and the nearer end outside it |
| Morph.TestMorph | morph.js:189-198 | the manual hook does nothing exactly when the shape element or the library is missing |
| Morph.TestMorphClamps | morph.js:195 | positions below 0 or above 1 render as position 0 or 1 |
| ContactForm.PatternGivesWellFormed | script.js:55 | a match of the pattern has no whitespace, exactly one `@` with text before it, and a dot with text on both sides after it |
| ContactForm.WellFormedGivesPattern | script.js:55 | every such address matches the pattern |
| ContactForm.PatternIsWellFormed | script.js:55-56 | the pattern accepts exactly the well-formed addresses |
| ContactForm.Submit | script.js:48-59 | the fill-all-fields verdict is given exactly when a field is empty, before the email is checked; the form is accepted exactly when all fields are filled and the email is well formed |
| ContactForm.AcceptsShortAddress | script.js:55-56 | `a@b.c` is accepted |
| ContactForm.RejectsDotAfterAt | script.js:55-56 | `a@.b` is rejected |
| ContactForm.RejectsTrailingDot | script.js:55-56 | `a@b.` is rejected |
| ContactForm.RejectsSpace | script.js:55-56 | `a b@c.d` is rejected |
| Dock.LastReached | script.js:18-26 | the chosen index is the last section with scrollY ≥ offsetTop − 200, or −1 when none qualifies |
| Dock.LastReachedMonotone | script.js:21-26 | for any sections, scrolling further down never selects an earlier section |
| Dock.CurrentSection | script.js:18-26 | the handler's loop leaves `current` as the last reached section's id, or `''` when none is reached |
| Dock.HighlightDock | script.js:28-33 | afterwards a dock item is active exactly when its href is `'#' + current`; every other item is cleared |
| Dock.OnScroll | script.js:17-34 | a dock item ends active exactly when its href links to the last section reached |
| Counter.CounterAnimation.constructor | script.js:170-175 | the counter starts at 0 with increment target/(duration/16), the `+` is dropped exactly for "Internships", and the timer runs |
| Counter.CounterAnimation.Tick | script.js:175-191 | each tick adds the increment; while below the target the floor is shown with the suffix rule; once at or past the target the target itself is shown and the timer stops; while it runs, fewer than duration/16 ticks have passed for a target ≥ 0 |
| Counter.CounterFinishes | script.js:172-189 | for a target ≥ 0, a tick k with 16k ≥ duration has reached the target |
| Carousel.Round | script.js:427 | `Math.round` gives the integer within half a unit, halves rounded up |
| Carousel.ActiveIndexInRange | script.js:409-430 | the active index names a real dot exactly when scrollLeft lies within half a slide of the first to the last slide |
| Carousel.CreateDots | script.js:411-420 | one dot per slide, and only dot 0 starts active |
| Carousel.CarouselView.constructor | script.js:407-436 | dots are created, then the state is updated once from the starting scroll position |
| Carousel.CarouselView.UpdateState | script.js:425-433 | dot i is active exactly when i = round(scrollLeft/340), so at most one dot is active; back is disabled exactly when scrollLeft ≤ 10; forward exactly when scrollLeft ≥ scrollWidth − clientWidth − 10 |
| Theme.StoredValue | script.js:225 | the stored value is "dark" exactly for the dark flag |
| Theme.Page.ToggleTheme | script.js:223-226 | the flag flips and "dark" is stored exactly when the flag is now set |
| Theme.Page.LoadSavedTheme | script.js:229-234 | the flag is set when "dark" is stored and never cleared |
| Theme.ToggleTwiceThenReload | script.js:223-234 | two toggles restore the flag, and a reload restores the theme current when the page was left |
| ScrollToTop.ButtonOpacity | script.js:267-273 | the opacity is "1" exactly when scrollY > 300 and "0" otherwise |
| Planets.PlanetColour | script.js:339-351 | every answer is a `#rrggbb` colour; white exactly for a name outside the eight planets |
| Planets.ColoursDistinct | script.js:341-348 | no two planets share a colour |

## Left out

- Event-listener registration, element lookups and `preventDefault` are left out. So are smooth scrolling (`scrollIntoView`, `scrollBy`, `scrollTo`) and the observer callbacks (script.js:1-14, 76-101, 149-167, 194-219, 435-445). They are browser I/O with no rule beyond those modelled.
- The page returns early when the shape element is missing (morph.js:16-19), and it skips the listeners when the hero section is missing (morph.js:148-155). Neither path is modelled: an `Animator` stands for a page where both exist. `Morph.TestMorph` does model a missing element.
- The interpolation library's geometry is opaque. A path is a string that the library's function returns or fails to return.
- `Math.pow(r, 1.2)` is the `curve` field. Only its range and its values at 0 and 1 are assumed.
- Numbers are Dafny reals and integers, not IEEE doubles. There is no rounding, no `NaN` and no `Infinity`.
- Morph.Animator.PointerMove requires a rectangle with a positive side, but only when the move is past the throttle window and the cache is stale, so the live rectangle is actually read. Morph.Animator.TouchMove has the same precondition, and only when a touch point exists. The source does not exclude a zero-size rectangle. Then the squared radius is 0 (morph.js:92). A pointer anywhere but the collapsed centre gives `d²/0 = Infinity`, so the ratio is `max(0, -Infinity) = 0` and the target is 0. A pointer exactly at the centre gives `0/0 = NaN` (morph.js:95-96). That `NaN` then stays in `currentT` for the rest of the session: every later `diff` is `NaN`, `Math.abs(NaN) > 0.001` is false, and every later animation stops after one frame. Reals have no `Infinity` or `NaN`, so none of this is modelled.
- `Date.now`, `requestAnimationFrame`, `cancelAnimationFrame` and `setInterval` are an integer clock parameter, the `queuedFrames` count and explicit `Tick` calls. Cancelling the handle of the running frame is a no-op and is not modelled.
- Morph.Animator.AnimationFrame keeps only the last path a frame writes. The stopping frame writes twice, but only the final write can be painted.
- Console logging, the debug block (morph.js:180-185), `alert` and the form's `reset` are left out.
- Counter.CounterFinishes and the tick bound in Counter.CounterAnimation.Tick are stated only for targets ≥ 0, because the counters' values are never negative. With a negative target and a duration under 16 ms the timer would never stop, but the only call uses 2000 ms.
- Counter text is the `Label` datatype, a count plus a `+` flag, not a string. `parseInt` is not modelled; its `NaN` case is excluded by the integer type.
- `localStorage` is a single optional string. The body starts without the `dark-theme` class.
- Dock items that share an href all become active. Nothing is proved about their uniqueness.
- The solar-system drawing (script.js:281-337) is left out: floating-point trigonometry, device pixel ratio and wall-clock time.
- The glow variables and random character strings (script.js:103-112, 359-397) are left out.
- The background-path generator (script.js:114-146) is left out: random durations formatted into SVG strings.
- The project-card hover transforms (script.js:210-219) are left out.
