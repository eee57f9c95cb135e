# Particle background and page UI state, in Dafny

This project models the animated particle background of a portfolio site and
the small pieces of UI state on its single page.

- `particles.dfy` (module `Particles`): the particle record, the constructor
  that draws a particle's position, size, velocity and opacity from the random
  source, the particle-count formula, seeding, and the one-frame
  move-and-wrap `update`.
- `connections.dfy` (module `Connections`): the O(n²) proximity scan of each
  frame. It visits every unordered pair `i < j` once and emits a line for the
  pairs closer than 100 units. Lines are index pairs.
- `background.dfy` (module `Background`): the scene as a whole. It covers the
  resize handler, which resizes the surface and reseeds, one animation frame
  (update every particle, then scan), runs of frames, and mounting.
- `carousel.dfy` (module `Carousel`): the testimonial carousel index, with
  JavaScript's truncating `%` written out.
- `portfolio.dfy` (module `Portfolio`): the category filter of the portfolio
  grid, and the badge and button labels a card shows for its category.
- `navbar.dfy` (module `Navbar`): the hide-on-scroll-down rule of the
  navigation bar.

Positions, velocities, sizes and opacities are Dafny `real`s. The surface's
width and height are `nat`s, because a canvas has whole-pixel dimensions.
`Math.random` is replaced by a sequence of reals. Each particle consumes six of
them, in the constructor's order: x, y, size, speedX, speedY, opacity.
`Math.sqrt(dx*dx + dy*dy) < 100` is modelled as `dx*dx + dy*dy < 10000`.

Two consequences of the code worth stating up front:

- A coordinate that lands exactly on the width (height) stays there: the code
  tests `x > canvas.width`, so the reachable domain is the closed box
  `[0, W] × [0, H]` (`Particles.RightEdgeIsNotWrapped`).
- The count formula does no clamping: an effective density of 0 gives
  `10000 / 0 = Infinity` and a count of 0; a negative one gives a
  non-positive count, so the loop runs zero times. The model's count is 0 in
  both cases (`Particles.ParticleCount`).

## Model

| member | source | states |
|---|---|---|
| `Particles.EffectiveDensity` | components/particle-background.tsx:74 | the density used is the smaller of `density` and `maxDensity`, and is one of the two |
| `Particles.ParticleCount` | components/particle-background.tsx:74 | for a positive effective density `d` the count is the floor of `W*H*d/10000` (the count is at most that value and more than that value minus 1); for `d <= 0` it is 0 |
| `Particles.ZeroAreaSeedsNothing` | components/particle-background.tsx:74-78 | a surface of width 0 or height 0 seeds no particles |
| `Particles.CountExamples` | components/particle-background.tsx:12-74 | a 1000×1000 surface holds 5000 particles with the default props and 3000 with density 30 |
| `Particles.CountMonotoneInArea` | components/particle-background.tsx:74 | a larger surface never seeds fewer particles |
| `Particles.NewParticle` | components/particle-background.tsx:40-47 | with draws in [0,1), x is in [0,W] and below W when W > 0 (likewise y), size is in [0.5,2.5), opacity in [0.2,0.7), each velocity component in [-speed/2, speed/2) |
| `Particles.Scaled` | components/particle-background.tsx:41-42 | a draw in [0,1) scaled by a non-negative bound lands in [0, bound], strictly below a positive bound |
| `Particles.Velocity` | components/particle-background.tsx:44-45 | a draw in [0,1) gives a velocity component in [-speed/2, speed/2), or the mirrored interval for a negative speed |
| `Particles.Spawn` | components/particle-background.tsx:76-78 | the loop creates exactly `k` particles; particle `i` is built from the `i`-th block of six draws; with draws in [0,1) every particle is within the constructor's ranges |
| `Particles.Seed` | components/particle-background.tsx:71-79 | the new collection has exactly the formula's count, particle `i` is built from the `i`-th block of six draws, and with draws in [0,1) every particle is within the constructor's ranges |
| `Particles.WrapAxis` | components/particle-background.tsx:51-58 | for a non-negative bound the result is in [0, bound] whatever the prior position; a move that stays in [0, bound] is kept; a move past the bound gives 0 and a move below 0 gives the bound |
| `Particles.Update` | components/particle-background.tsx:49-59 | size, both speeds and opacity are unchanged; new x depends only on x, speedX and the width, new y only on y, speedY and the height; the result is in the closed box |
| `Particles.RightEdgeIsNotWrapped` | components/particle-background.tsx:54-55 | x exactly equal to the width, with no horizontal motion, stays at the width |
| `Particles.EdgeCrossings` | components/particle-background.tsx:54-58 | moving past the right edge gives x = 0, past the left edge x = width, and the velocity is kept |
| `Particles.FramesKeepAttributes` | components/particle-background.tsx:49-59 | over any number of frames only the position changes, and after one frame the particle is in the box |
| `Particles.StillParticleStaysPut` | components/particle-background.tsx:51-58 | a motionless particle inside the box is unchanged by any number of frames |
| `Connections.RowFacts` | components/particle-background.tsx:96 | the inner loop for `i` visits exactly the pairs (i, m) with i < m < j, in increasing order |
| `Connections.ScanFacts` | components/particle-background.tsx:95-96 | the first `i` outer iterations visit exactly the pairs a < b < n with a < i, in lexicographic order |
| `Connections.ScanOrder` | components/particle-background.tsx:95-96 | the full scan visits pair (a, b) iff a < b < n, in strictly increasing order |
| `Connections.ScanUpToLength` | components/particle-background.tsx:95-96 | the first `i` outer iterations visit `i*(2n-i-1)/2` pairs |
| `Connections.ScanVisitsEachPairOnce` | components/particle-background.tsx:95-96 | the scan visits exactly n(n-1)/2 pairs, no pair twice |
| `Connections.KeepCloseFacts` | components/particle-background.tsx:97-101 | filtering the visited pairs keeps exactly the close ones, in the order visited |
| `Connections.ConnectedPairs` | components/particle-background.tsx:95-108 | a line (i, j) is drawn iff i < j < n and the squared distance is below 10000; the lines come out in scan order |
| `Connections.NoDuplicateLines` | components/particle-background.tsx:95-108 | no line is drawn twice, and never both (i, j) and (j, i) |
| `Connections.CloseIsSymmetric` | components/particle-background.tsx:97-101 | closeness does not depend on the order of the two particles, so scanning only i < j loses no line |
| `Connections.ScanConnections` | components/particle-background.tsx:95-108 | the nested loops as written produce exactly `ConnectedPairs` |
| `Connections.ScanRow` | components/particle-background.tsx:96-107 | one inner loop produces exactly the close pairs of its row, in order |
| `Background.Resize` | components/particle-background.tsx:25-30 | the surface takes the new dimensions; the collection has the new area's count and particle `k` is built from the `k`-th block of draws; with draws in [0,1) every particle is within the constructor's ranges |
| `Background.ResizeDiscardsOldParticles` | components/particle-background.tsx:71-79 | the result of a resize does not depend on the previous collection |
| `Background.UpdateAll` | components/particle-background.tsx:85-88 | every particle is updated, in place, and the collection keeps its length |
| `Background.Tick` | components/particle-background.tsx:81-108 | particle k of the new frame is `update` of old particle k; the frame keeps the surface, the count and every non-position attribute, leaves every particle in the box, and draws (a, b) iff the moved particles a and b are close; the lines are exactly `ConnectedPairs` of the moved particles, so each close pair is stroked once, in scan order |
| `Background.RunPreservesCollection` | components/particle-background.tsx:81-111 | any run of frames keeps the surface, the count and every non-position attribute, and after one frame everything is in the box |
| `Background.MotionlessSceneIsStill` | components/particle-background.tsx:81-88 | a scene of motionless particles inside the box is unchanged by any number of frames |
| `Background.ZeroSpeedResizeIsStill` | components/particle-background.tsx:40-59 | with speed 0, a freshly resized scene is unchanged by any number of frames |
| `Background.Mount` | components/particle-background.tsx:113-115 | after mounting, the surface has the window's size, the count matches the formula, particle k is `update` of the k-th freshly seeded particle, every particle is in the box, and the first frame strokes exactly `ConnectedPairs` of the moved particles |
| `Carousel.JsRem` | app/page.tsx:249-256 | JavaScript's `%` with a positive divisor agrees with the Euclidean remainder on non-negative dividends and on negative ones lies in (-n, 0] and differs from the dividend by a multiple of n |
| `Carousel.Next` | app/page.tsx:249-251 | from a non-negative index the result is in [0, n); next advances by one and wraps from n-1 to 0 |
| `Carousel.Prev` | app/page.tsx:253-256 | from a non-negative index the result is in [0, n); prev steps back by one and wraps from 0 to n-1 |
| `Carousel.NextPrevInverse` | app/page.tsx:249-256 | on every index in [0, n), next then prev, and prev then next, return to the index |
| `Carousel.NextTimesIsRotation` | app/page.tsx:249-251 | pressing next k times from i gives (i + k) mod n |
| `Carousel.Press` | app/page.tsx:752-774 | the next button selects `Next(i, n)`, the prev button `Prev(i, n)`, a dot its own index; from a non-negative index with a dot in range the result is in [0, n) |
| `Carousel.PressesStayInRange` | app/page.tsx:112-256 | starting from any index in range (the page starts at 0), no sequence of presses leaves [0, n) |
| `Carousel.PageExamples` | app/page.tsx:83-109 | on the page's four testimonials, prev from 0 shows 3 and next from 3 shows 0 |
| `Portfolio.WithCategory` | app/page.tsx:246 | the result holds only items of the category, every such item of the input, and nothing outside the input |
| `Portfolio.FilteredItems` | app/page.tsx:245-246 | "all" returns the list unchanged; any other filter returns only input items of that category, keeps every such item with its multiplicity, and keeps the input order (the result is a subsequence of the input) |
| `Portfolio.FilterKeepsOrder` | app/page.tsx:246 | the filtered list is a subsequence of the input |
| `Portfolio.FilterIsExact` | app/page.tsx:246 | every item of the category keeps its multiplicity and every other item is dropped |
| `Portfolio.BadgeLabel` | app/page.tsx:664-668 | "YouTube" iff youtube, "Photography" iff photography, "Client" for every other category |
| `Portfolio.ActionLabel` | app/page.tsx:655 | "View" iff photography, otherwise "Watch" |
| `Portfolio.FilteredBadges` | app/page.tsx:664-668 | under a category filter every shown card carries that category's badge |
| `Navbar.OnScroll` | app/page.tsx:126-135 | the bar is hidden iff the new scroll offset is greater than the last one and greater than 100; the last position becomes the new one |
| `Navbar.FirstScrollFromTop` | app/page.tsx:114-135 | from the initial state (visible, last offset 0) the first scroll hides the bar iff it lands past 100 |
| `Navbar.ShowRules` | app/page.tsx:129-133 | scrolling up or staying within 100 of the top always shows the bar, and the previous visibility does not matter |
| `Navbar.ScrollsDependOnLastStep` | app/page.tsx:126-135 | after a run of scroll events the handler holds the last position, and the bar is hidden iff the last event moved down past 100 |

## Left out

- Canvas drawing (`arc`, `fill`, `stroke`, `clearRect`, colours, alpha, line width): browser APIs. A frame's drawing is represented by the list of index pairs it strokes.
- `requestAnimationFrame`, `cancelAnimationFrame`, the resize listener and effect cleanup: host-driven scheduling. The model replaces them with explicit `Tick`, `Run`, `Resize` and `Mount` steps.
- The early returns when the canvas or its 2D context is missing: no work happens, so nothing is modelled.
- `Math.random`: replaced by an injected sequence of reals. Seeding requires six draws per particle because the browser's generator never runs out.
- IEEE floating-point rounding, including in the count division: everything is exact real arithmetic. A floating-point quotient that lands just below an integer can make the browser's count differ from the model's by one, in either direction.
- `Particles.ParticleCount`: NaN densities are not modelled, because reals have no NaN.
- `Carousel.Next` / `Carousel.Prev`: require a positive list length; the page's testimonial list is a non-empty constant, and a length of 0 would give NaN.
- The effect depends on `density`, `speed` and `color` but not on `maxDensity`, so a change to `maxDensity` alone would not reseed. React re-running effects is not modelled.
- The scroll handler is re-registered whenever `lastScrollY` changes. Events that arrive before React re-renders would see a stale `lastScrollY`. The model processes scroll events one after another against the latest state.
- GSAP and framer-motion animations, the service-card tilt, the custom cursor, the layout, the lightbox, the contact form and all markup: UI animation and presentation with no sequential logic of their own.
