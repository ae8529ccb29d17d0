/**
  The interactive dot grid of the Home page: a lattice of dots whose size,
  opacity and colour follow the pointer's distance and a periodic random
  "pulse". Coordinates and distances are exact reals; a square root is never
  computed: wherever the page takes one, its result is an input `dist` with
  `dist >= 0` and `dist * dist` equal to the squared distance. A random draw
  is an input `r` with `0 <= r < 1`.
 */
module ProximityGrid {

  // ---------------------------------------------------------------- presets

  /** Lattice dimensions and the spacing between dot centres, in pixels. */
  datatype GridConfig = GridConfig(rows: nat, cols: nat, gap: nat)

  /** Viewports narrower than this get the compact lattice. */
  const Breakpoint: int := 768
  const Compact: GridConfig := GridConfig(9, 9, 24)
  const Standard: GridConfig := GridConfig(12, 12, 28)

  predicate IsPreset(c: GridConfig) {
    c == Compact || c == Standard
  }

  /** The lattice chosen for a viewport width (on load and on every resize). */
  function SelectConfig(width: int): (c: GridConfig)
    ensures IsPreset(c)
    ensures c.gap > 0 && 0 < c.rows * c.cols <= 144
  {
    if width < Breakpoint then Compact else Standard
  }

  /** The choice depends only on which side of the breakpoint the width lies. */
  lemma SelectConfigThreshold(width: int)
    ensures SelectConfig(width) == Compact <==> width < Breakpoint
    ensures SelectConfig(width) == Standard <==> width >= Breakpoint
  {
  }

  /** A wider viewport never gets fewer rows or columns, a smaller gap or a narrower surface. */
  lemma SelectConfigMonotone(w1: int, w2: int)
    requires w1 <= w2
    ensures SelectConfig(w1).rows <= SelectConfig(w2).rows
    ensures SelectConfig(w1).cols <= SelectConfig(w2).cols
    ensures SelectConfig(w1).gap <= SelectConfig(w2).gap
    ensures SurfaceWidth(SelectConfig(w1)) <= SurfaceWidth(SelectConfig(w2))
  {
  }

  // ---------------------------------------------------------------- layout

  /** Row-major position of the dot in row `i`, column `j`. */
  function Index(c: GridConfig, i: nat, j: nat): (k: nat)
    requires i < c.rows && j < c.cols
    ensures k < c.rows * c.cols
  {
    assert i * c.cols + j < c.rows * c.cols by {
      assert i * c.cols + c.cols == (i + 1) * c.cols;
      assert (i + 1) * c.cols <= c.rows * c.cols by {
        MulMonotone(i + 1, c.rows, c.cols);
      }
    }
    i * c.cols + j
  }

  lemma MulMonotone(a: nat, b: nat, m: nat)
    requires a <= b
    ensures a * m <= b * m
  {
  }

  /** The row and column of a row-major position. */
  function RowOf(c: GridConfig, k: nat): nat
    requires c.cols > 0
  {
    k / c.cols
  }

  function ColOf(c: GridConfig, k: nat): nat
    requires c.cols > 0
  {
    k % c.cols
  }

  lemma DivModUnique(n: int, d: int, q: int, r: int)
    requires 0 < d && 0 <= r < d && n == q * d + r
    ensures n / d == q && n % d == r
  {
    var q', r' := n / d, n % d;
    assert n == q' * d + r';
    if q' < q {
      assert (q - q') * d == r' - r;
      MulMonotone(1, q - q', d);
    } else if q' > q {
      assert (q' - q) * d == r - r';
      MulMonotone(1, q' - q, d);
    }
  }

  /** The row-major position determines the row and the column. */
  lemma IndexRoundTrip(c: GridConfig, i: nat, j: nat)
    requires i < c.rows && j < c.cols
    ensures RowOf(c, Index(c, i, j)) == i && ColOf(c, Index(c, i, j)) == j
  {
    DivModUnique(Index(c, i, j), c.cols, i, j);
  }

  /** Distinct dots have distinct positions. */
  lemma IndexInjective(c: GridConfig, i: nat, j: nat, i': nat, j': nat)
    requires i < c.rows && j < c.cols && i' < c.rows && j' < c.cols
    ensures Index(c, i, j) == Index(c, i', j') ==> i == i' && j == j'
  {
    IndexRoundTrip(c, i, j);
    IndexRoundTrip(c, i', j');
  }

  /** Every position below rows * cols belongs to some dot. */
  lemma IndexCovers(c: GridConfig, k: nat)
    requires k < c.rows * c.cols
    ensures c.cols > 0
    ensures RowOf(c, k) < c.rows && ColOf(c, k) < c.cols
    ensures Index(c, RowOf(c, k), ColOf(c, k)) == k
  {
  }

  datatype Point = Point(x: real, y: real)

  /** Centre of the dot in row `i`, column `j`: the middle of its gap-by-gap cell. */
  function Centre(c: GridConfig, i: nat, j: nat): (p: Point)
    ensures (j * c.gap) as real <= p.x <= ((j + 1) * c.gap) as real
    ensures (i * c.gap) as real <= p.y <= ((i + 1) * c.gap) as real
    ensures p.x - (j * c.gap) as real == ((j + 1) * c.gap) as real - p.x
    ensures p.y - (i * c.gap) as real == ((i + 1) * c.gap) as real - p.y
  {
    assert (j + 1) * c.gap == j * c.gap + c.gap;
    assert (i + 1) * c.gap == i * c.gap + c.gap;
    Point((j * c.gap) as real + c.gap as real / 2.0, (i * c.gap) as real + c.gap as real / 2.0)
  }

  /** The drawing surface is cols * gap wide and rows * gap high. */
  function SurfaceWidth(c: GridConfig): real {
    (c.cols * c.gap) as real
  }

  function SurfaceHeight(c: GridConfig): real {
    (c.rows * c.gap) as real
  }

  /** Every dot centre lies strictly inside the drawing surface. */
  lemma CentreInsideSurface(c: GridConfig, i: nat, j: nat)
    requires c.gap > 0 && i < c.rows && j < c.cols
    ensures 0.0 < Centre(c, i, j).x < SurfaceWidth(c)
    ensures 0.0 < Centre(c, i, j).y < SurfaceHeight(c)
  {
  }

  // ---------------------------------------------------------------- distance

  /** Where the pointer is taken to be while it is outside the grid (also the initial value). */
  const Offscreen: Point := Point(-1000.0, -1000.0)

  /** A dot nearer than this to the pointer is hovered (strictly nearer). */
  const Radius: real := 120.0

  /** The squared Euclidean distance: never negative, zero for equal points,
      and at least the square of either coordinate difference. */
  function SquaredDistance(a: Point, b: Point): (d2: real)
    ensures d2 >= 0.0
    ensures a == b ==> d2 == 0.0
    ensures d2 >= (a.x - b.x) * (a.x - b.x) && d2 >= (a.y - b.y) * (a.y - b.y)
  {
    SquareNonNegative(a.x - b.x);
    SquareNonNegative(a.y - b.y);
    (a.x - b.x) * (a.x - b.x) + (a.y - b.y) * (a.y - b.y)
  }

  lemma SquareNonNegative(x: real)
    ensures x * x >= 0.0
  {
    if x < 0.0 {
      assert x * x == (-x) * (-x);
    }
  }

  /** `d` is the Euclidean distance between `a` and `b`. */
  predicate IsDistance(d: real, a: Point, b: Point) {
    d >= 0.0 && d * d == SquaredDistance(a, b)
  }

  lemma SquareMonotone(a: real, b: real)
    requires 0.0 <= a <= b
    ensures a * a <= b * b
  {
  }

  /** Hover needs no square root: a dot is within the radius exactly when
      its squared distance is below the squared radius. */
  lemma HoverBySquaredDistance(d: real, a: Point, b: Point)
    requires IsDistance(d, a, b)
    ensures d < Radius <==> SquaredDistance(a, b) < Radius * Radius
  {
    if d < Radius {
      assert d * d <= d * 120.0;
    } else {
      SquareMonotone(Radius, d);
    }
  }

  /** No dot centre lies within the radius of the off-screen pointer, whatever the lattice. */
  lemma OffscreenIsFar(c: GridConfig, i: nat, j: nat)
    ensures SquaredDistance(Centre(c, i, j), Offscreen) > Radius * Radius
  {
  }

  // ---------------------------------------------------------------- appearance

  const Accent: string := "#4F9CF9"
  const Plain: string := "#FFFFFF"

  /** How a dot is drawn: scale factor, opacity and fill colour. */
  datatype Look = Look(scale: real, opacity: real, fill: string)

  /** A dot that is neither hovered nor pulsing. */
  const IdleLook: Look := Look(1.0, 0.15, Plain)
  /** A pulsing dot that is not hovered. */
  const PulseLook: Look := Look(1.5, 0.8, Accent)

  /** The look of a dot at distance `dist` from the pointer. Hover is tested
      first, so it takes precedence over pulsing. */
  function Appearance(dist: real, pulsing: bool): (v: Look)
    requires dist >= 0.0
    ensures 1.0 <= v.scale <= 1.8
    ensures v.fill == Accent <==> dist < Radius || pulsing
    ensures v.scale > 1.0 <==> v.fill == Accent
    ensures v.opacity > 0.15 <==> v.fill == Accent
    ensures v.opacity == 1.0 <==> dist < Radius
  {
    var hovered := dist < Radius;
    var scale := if hovered then 1.8 - dist / Radius * 0.8 else if pulsing then 1.5 else 1.0;
    var opacity := if hovered then 1.0 else if pulsing then 0.8 else 0.15;
    var fill := if hovered || pulsing then Accent else Plain;
    Look(scale, opacity, fill)
  }

  /** Within the radius the pulse makes no difference. */
  lemma HoverOverridesPulse(dist: real)
    requires 0.0 <= dist < Radius
    ensures Appearance(dist, true) == Appearance(dist, false)
  {
  }

  /** At or beyond the radius only the pulse matters. */
  lemma OutsideRadiusLook(dist: real, pulsing: bool)
    requires dist >= Radius
    ensures Appearance(dist, pulsing) == if pulsing then PulseLook else IdleLook
  {
  }

  /** Inside the radius the scale falls off from 1.8 at the pointer towards 1
      at the edge: it is largest exactly at distance 0 and falls strictly as
      the distance grows. */
  lemma HoverFalloff(d1: real, d2: real, pulsing: bool)
    requires 0.0 <= d1 <= d2 < Radius
    ensures Appearance(d1, pulsing).scale >= Appearance(d2, pulsing).scale
    ensures d1 < d2 ==> Appearance(d1, pulsing).scale > Appearance(d2, pulsing).scale
    ensures Appearance(d1, pulsing).scale == 1.8 <==> d1 == 0.0
    ensures Appearance(d2, pulsing).scale > 1.0
  {
  }

  /** The radius itself is not hovered: a dot exactly 120 away looks like a distant one. */
  lemma RadiusBoundary()
    ensures Appearance(Radius, false) == IdleLook
    ensures Appearance(Radius, true) == PulseLook
  {
  }

  // ---------------------------------------------------------------- dots

  /** One drawn dot: its row-major position, its centre and its look. */
  datatype Dot = Dot(index: nat, centre: Point, look: Look)

  /** The dot in row `i`, column `j`, given the pointer, the pulse list and
      the dot's distance `dist` to the pointer. */
  function DotAt(c: GridConfig, pointer: Point, pulses: seq<int>, i: nat, j: nat, dist: real): (d: Dot)
    requires i < c.rows && j < c.cols
    requires IsDistance(dist, Centre(c, i, j), pointer)
    ensures d.index == Index(c, i, j) && d.index < c.rows * c.cols && d.centre == Centre(c, i, j)
    ensures d.look.opacity == 1.0 <==> SquaredDistance(d.centre, pointer) < Radius * Radius
    ensures d.look.fill == Accent <==>
      SquaredDistance(d.centre, pointer) < Radius * Radius || d.index in pulses
  {
    HoverBySquaredDistance(dist, Centre(c, i, j), pointer);
    Dot(Index(c, i, j), Centre(c, i, j), Appearance(dist, Index(c, i, j) in pulses))
  }

  /** While the pointer is off-screen no dot is hovered: each looks idle or pulsing. */
  lemma OffscreenLooks(c: GridConfig, pulses: seq<int>, i: nat, j: nat, dist: real)
    requires i < c.rows && j < c.cols
    requires IsDistance(dist, Centre(c, i, j), Offscreen)
    ensures DotAt(c, Offscreen, pulses, i, j, dist).look ==
      if Index(c, i, j) in pulses then PulseLook else IdleLook
  {
    OffscreenIsFar(c, i, j);
    HoverBySquaredDistance(dist, Centre(c, i, j), Offscreen);
  }

  /** All the dots, row by row; `dists[i][j]` is the distance of dot (i, j)
      to the pointer. Exactly rows * cols dots come out, dot k has position
      k, and each is the dot `DotAt` describes. */
  method Dots(c: GridConfig, pointer: Point, pulses: seq<int>, dists: seq<seq<real>>) returns (dots: seq<Dot>)
    requires |dists| == c.rows
    requires forall i :: 0 <= i < c.rows ==> |dists[i]| == c.cols
    requires forall i, j :: 0 <= i < c.rows && 0 <= j < c.cols ==> IsDistance(dists[i][j], Centre(c, i, j), pointer)
    ensures |dots| == c.rows * c.cols
    ensures forall k :: 0 <= k < |dots| ==> dots[k].index == k
    ensures forall i, j :: 0 <= i < c.rows && 0 <= j < c.cols ==>
      Index(c, i, j) < |dots| && dots[Index(c, i, j)] == DotAt(c, pointer, pulses, i, j, dists[i][j])
  {
    dots := [];
    var i := 0;
    while i < c.rows
      invariant 0 <= i <= c.rows
      invariant |dots| == i * c.cols
      invariant forall k :: 0 <= k < |dots| ==> dots[k].index == k
      invariant forall i', j :: 0 <= i' < i && 0 <= j < c.cols ==>
        Index(c, i', j) < |dots| && dots[Index(c, i', j)] == DotAt(c, pointer, pulses, i', j, dists[i'][j])
    {
      var j := 0;
      while j < c.cols
        invariant 0 <= j <= c.cols
        invariant |dots| == i * c.cols + j
        invariant forall k :: 0 <= k < |dots| ==> dots[k].index == k
        invariant forall i', j' :: 0 <= i' < i && 0 <= j' < c.cols ==>
          Index(c, i', j') < |dots| && dots[Index(c, i', j')] == DotAt(c, pointer, pulses, i', j', dists[i'][j'])
        invariant forall j' :: 0 <= j' < j ==>
          Index(c, i, j') < |dots| && dots[Index(c, i, j')] == DotAt(c, pointer, pulses, i, j', dists[i][j'])
      {
        dots := dots + [DotAt(c, pointer, pulses, i, j, dists[i][j])];
        j := j + 1;
      }
      assert i * c.cols + c.cols == (i + 1) * c.cols;
      i := i + 1;
    }
  }

  // ---------------------------------------------------------------- pulses

  /** How many dots one tick pulses, from one random draw. */
  function PulseCount(r: real): (n: nat)
    requires 0.0 <= r < 1.0
    ensures 1 <= n <= 3
  {
    (r * 3.0).Floor + 1
  }

  /** Each count takes a third of the draws. */
  lemma PulseCountBands(r: real)
    requires 0.0 <= r < 1.0
    ensures PulseCount(r) == 1 <==> r < 1.0 / 3.0
    ensures PulseCount(r) == 3 <==> r >= 2.0 / 3.0
  {
  }

  /** The position one random draw picks among `n` dots. With no dots the
      page's formula yields 0, which names no dot. */
  function PulseIndex(r: real, n: nat): (k: int)
    requires 0.0 <= r < 1.0
    ensures n > 0 ==> 0 <= k < n
    ensures n == 0 ==> k == 0
  {
    assert r * n as real < n as real || n == 0 by {
      if n > 0 {
        assert r * n as real < 1.0 * n as real;
      }
    }
    (r * n as real).Floor
  }

  /** Every dot can be picked: the draw k / n picks dot k. */
  lemma PulseIndexReaches(n: nat, k: nat)
    requires k < n
    ensures 0.0 <= k as real / n as real < 1.0
    ensures PulseIndex(k as real / n as real, n) == k
  {
  }

  /** One tick's pulse list: the first draw gives the count, and each of the
      next `count` draws gives a position in the current lattice. */
  method PulseBatch(c: GridConfig, countDraw: real, indexDraws: seq<real>) returns (batch: seq<int>)
    requires 0.0 <= countDraw < 1.0
    requires |indexDraws| >= PulseCount(countDraw)
    requires forall k :: 0 <= k < |indexDraws| ==> 0.0 <= indexDraws[k] < 1.0
    ensures 1 <= |batch| <= 3 && |batch| == PulseCount(countDraw)
    ensures forall k :: 0 <= k < |batch| ==> batch[k] == PulseIndex(indexDraws[k], c.rows * c.cols)
    ensures c.rows * c.cols > 0 ==> forall k :: 0 <= k < |batch| ==> 0 <= batch[k] < c.rows * c.cols
  {
    var count := PulseCount(countDraw);
    batch := [];
    while |batch| < count
      invariant |batch| <= count
      invariant forall k :: 0 <= k < |batch| ==> batch[k] == PulseIndex(indexDraws[k], c.rows * c.cols)
    {
      batch := batch + [PulseIndex(indexDraws[|batch|], c.rows * c.cols)];
    }
  }

  /** A position at or beyond rows * cols (left over from a larger lattice
      before a resize) makes no dot of the current lattice pulse. */
  lemma StalePulseHarmless(c: GridConfig, k: int, i: nat, j: nat)
    requires k >= c.rows * c.cols && i < c.rows && j < c.cols
    ensures Index(c, i, j) != k
  {
  }
}
