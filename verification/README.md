# Portfolio site: proximity dot grid and project-card text

A Dafny model of the two pieces of the portfolio website that hold logic:

- **The interactive dot grid** on the Home page (`InteractiveGrid`). The
  viewport width selects one of two lattice presets. Dots are laid out row by
  row, and each dot sits in the middle of its gap-by-gap cell. A timer tick
  picks one to three random dots to "pulse". Each dot's scale, opacity and
  fill follow from its distance to the pointer and from whether it is pulsing.
  This is module `ProximityGrid` (`proximity_grid.dfy`).
- **The project cards** on the Work page (`SpotlightCard`). This covers the
  call-to-action label and icon and the status tag for each project kind, the
  `PRJ_nn` card number, the task-list numbers, and the page's list of seven
  projects. This is module `ProjectCards` (`project_cards.dfy`). It uses module
  `Decimal` (`decimal.dfy`), which models how a template literal turns a whole
  number below 10^21 into text and how that text reads back.

Modelling choices:

- Arithmetic is exact (`real` for coordinates and distances, `int`/`nat` for
  counts). JavaScript doubles are not modelled.
- The page takes `Math.sqrt` of the squared distance. Here that result is an
  input `dist` with `dist >= 0` and `dist * dist` equal to the squared
  distance (`IsDistance`). `Dots` receives one such distance per dot.
- Each `Math.random()` draw is an input `r` with `0 <= r < 1`. `Math.floor`
  is `.Floor`.
- The project kind is a datatype. The CTA switches and the status ternary
  compare the kind's string form (`Tag`), so each function is stated over any
  string and its `default` branch is modelled too. `ParseTag` is its partner.

The hover test is strict (`dist < 120`): a dot exactly 120 away is not
hovered; see `RadiusBoundary`.

## Model

| member | source | states |
|---|---|---|
| ProximityGrid.SelectConfig | pages/Home.tsx:20-27 | the chosen lattice is always one of the two presets; it has a positive gap and at most 144 dots |
| ProximityGrid.SelectConfigThreshold | pages/Home.tsx:21 | the compact 9x9/24 preset is chosen iff the width is below 768; the 12x12/28 preset is chosen iff it is 768 or more |
| ProximityGrid.SelectConfigMonotone | pages/Home.tsx:20-27 | a wider viewport never gets fewer rows or columns, a smaller gap or a narrower surface |
| ProximityGrid.Index | pages/Home.tsx:62-64 | the row-major position of any dot inside the loop bounds lies in [0, rows*cols) |
| ProximityGrid.IndexRoundTrip | pages/Home.tsx:64 | dividing the position by cols gives back the row, and the remainder gives back the column |
| ProximityGrid.IndexInjective | pages/Home.tsx:64 | distinct (row, column) pairs get distinct positions |
| ProximityGrid.IndexCovers | pages/Home.tsx:62-64 | every position below rows*cols belongs to exactly the dot whose row and column it encodes |
| ProximityGrid.Centre | pages/Home.tsx:65-66 | the centre of dot (i, j) is the midpoint of its own cell: it lies between j*gap and (j+1)*gap across and i*gap and (i+1)*gap down, equally far from both edges in each direction |
| ProximityGrid.CentreInsideSurface | pages/Home.tsx:65-66 | each dot centre lies strictly inside the cols*gap by rows*gap drawing surface set at line 104 |
| ProximityGrid.SquaredDistance | pages/Home.tsx:67-69 | the squared distance under the page's square root is never negative, is zero for equal points, and is at least the square of either coordinate difference |
| ProximityGrid.HoverBySquaredDistance | pages/Home.tsx:67-70 | a dot is hovered (distance < 120) exactly when its squared distance is below 14400 |
| ProximityGrid.OffscreenIsFar | pages/Home.tsx:56-58 | with the pointer at the (-1000, -1000) sentinel, every dot centre of every lattice is more than 120 away |
| ProximityGrid.OffscreenLooks | pages/Home.tsx:12 | with the pointer at the sentinel (initially and after leaving), each dot looks exactly idle or exactly pulsing: no dot is hovered |
| ProximityGrid.Appearance | pages/Home.tsx:70-74 | scale stays in [1, 1.8]; the fill is the accent colour iff hovered or pulsing; scale > 1 iff opacity > 0.15 iff accented; opacity is 1 iff hovered |
| ProximityGrid.HoverOverridesPulse | pages/Home.tsx:72-73 | inside the radius, pulsing changes nothing: hover takes precedence |
| ProximityGrid.OutsideRadiusLook | pages/Home.tsx:72-74 | at or beyond the radius a dot is (1.5, 0.8, accent) when pulsing and (1, 0.15, white) otherwise |
| ProximityGrid.HoverFalloff | pages/Home.tsx:72 | inside the radius the scale falls strictly as the distance grows, is above 1, and equals 1.8 exactly at distance 0 |
| ProximityGrid.RadiusBoundary | pages/Home.tsx:70 | a dot exactly 120 away is not hovered: it gets the idle or the pulsing look |
| ProximityGrid.DotAt | pages/Home.tsx:64-74 | one dot's position is Index(i, j), in range, and its centre is the cell centre; its opacity is 1 iff the squared distance is below 14400; it is accented iff that holds or its position is in the pulse list |
| ProximityGrid.Dots | pages/Home.tsx:60-94 | the nested loop emits exactly rows*cols dots; dot k has position k; the dot at Index(i, j) is the one DotAt describes for (i, j) |
| ProximityGrid.PulseCount | pages/Home.tsx:40 | a tick pulses 1, 2 or 3 dots for any draw in [0, 1) |
| ProximityGrid.PulseCountBands | pages/Home.tsx:40 | the count is 1 iff the draw is below 1/3, and 3 iff it is at least 2/3 |
| ProximityGrid.PulseIndex | pages/Home.tsx:42 | one draw gives a position in [0, n) when n > 0, and 0 when there are no dots |
| ProximityGrid.PulseIndexReaches | pages/Home.tsx:42 | every position k < n is reachable: draw k/n picks it |
| ProximityGrid.PulseBatch | pages/Home.tsx:39-44 | one tick's list has PulseCount entries; entry k is drawn from the k-th index draw; all entries lie in [0, rows*cols) of the current lattice |
| ProximityGrid.StalePulseHarmless | pages/Home.tsx:48 | a position left from a larger lattice (at least rows*cols) matches no dot of the current one |
| Decimal.Show | pages/Work.tsx:146 | the text of `${n}` is a non-empty digit string; it starts with '0' only for 0; it is one digit iff n < 10 and two digits iff 10 <= n < 100 |
| Decimal.ValueOfShow | pages/Work.tsx:146 | the text a template literal gives a whole number reads back as that number |
| Decimal.ShowInjective | pages/Work.tsx:146 | distinct numbers are rendered as distinct texts |
| Decimal.LeadingZero | pages/Work.tsx:169 | a leading '0' does not change the value of a digit string |
| ProjectCards.ParseTag | pages/Work.tsx:8 | a recognised string is exactly the string form of the kind it names |
| ProjectCards.ParseTagRoundTrip | pages/Work.tsx:8 | each of the three kinds is recognised from its own string |
| ProjectCards.CtaText | pages/Work.tsx:99-106 | the generic "View Project" label is produced iff the string names no kind |
| ProjectCards.CtaIcon | pages/Work.tsx:108-115 | the generic "arrow_forward" icon is produced iff the string names no kind |
| ProjectCards.StatusTag | pages/Work.tsx:148 | the tag is CASE_FILE iff the string is neither "website" nor "mock" |
| ProjectCards.CardTextsDistinguishKinds | pages/Work.tsx:99-115 | no declared kind reaches a default branch; the CTA label alone, the icon alone and the status tag alone each determine the kind |
| ProjectCards.CardLabel | pages/Work.tsx:146 | every card number starts with "PRJ_" followed by at least one more character |
| ProjectCards.CardLabelNumber | pages/Work.tsx:146 | the part after "PRJ_" is all digits and reads back as index + 1; it starts with '0' iff index < 9; it is two digits wide iff index <= 98 |
| ProjectCards.CardLabelInjective | pages/Work.tsx:146 | different list positions get different card numbers |
| ProjectCards.TaskNumber | pages/Work.tsx:169 | a task number is all digits, at least two wide, and always starts with '0' |
| ProjectCards.TaskNumberValue | pages/Work.tsx:169 | a task number reads back as i + 1; it is two characters wide iff i < 9 |
| ProjectCards.ProjectIdsDistinct | pages/Work.tsx:21-85 | the seven project ids, used as list keys at line 248, are pairwise distinct |
| ProjectCards.ProjectListNumbersTwoWide | pages/Work.tsx:21-85 | for the page's own list, every card number is six characters: "PRJ_" followed by two digits; every task number is two characters |
| ProjectCards.Face | pages/Work.tsx:146-189 | a card of a declared kind never shows the generic CTA label or icon; it numbers each of its tasks with TaskNumber |

## Left out

- React state, hooks, `useMemo` and the event listeners (pages/Home.tsx:12-58) are not modelled. The model keeps only the values they hold: the lattice, the pointer and the pulse list.
- Conversion of the pointer to surface coordinates is not modelled (pages/Home.tsx:50-54, pages/Work.tsx:93-97). It needs `getBoundingClientRect`, so the pointer is an input `Point`.
- The 2.5 s interval, the 1 s clearing timeout and timer cancellation (pages/Home.tsx:39-47) are not modelled. They are host timer scheduling. One tick's list is `PulseBatch`, and clearing means the empty list.
- `Math.sqrt`, `Math.random` and double rounding are not modelled. They are inputs, as described above.
- The SVG/JSX markup, the dot radius, CSS transitions, the glow filter, the spotlight gradient and the card's focus flag are not modelled. They are presentation only.
- All GSAP timelines are left out (pages/Home.tsx:127-214, pages/Work.tsx:206-228, and the other pages). They are calls into an animation library with no checkable logic.
- Routing, page transitions, the navigation menu, the contact form, and the static content of the About and Skills pages are left out. They are framework glue or static content.
- The initial lattice state (pages/Home.tsx:17) is not modelled on its own. It equals the 768-or-wider preset and is replaced by `SelectConfig` on mount.
- Decimal.Show: gives plain digits for every number. JavaScript switches to exponent notation ("1e+21") from 10^21 on, which is not modelled because list positions and task numbers stay far below it.
