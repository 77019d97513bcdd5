/** The shape of the trail's flight: its curve, its tangents and the order in which the particles leave
    (apps/web/lib/motion/logo-trail.ts). */
module LogoSweep {
  import opened SeededRandom
  import opened LogoTrail
  import opened LogoFlight

  // ---------------------------------------------------------------------------------------------
  // The curve
  // ---------------------------------------------------------------------------------------------

  lemma Weights(s: real)
    requires 0.0 < s <= 1.0
    ensures var u := 1.0 - s;
            && u * u * u >= 0.0 && 3.0 * u * u * s >= 0.0 && 3.0 * u * s * s >= 0.0 && s * s * s > 0.0
            && u * u * u + 3.0 * u * u * s + 3.0 * u * s * s + s * s * s == 1.0
  {
    var u := 1.0 - s;
    Product(u, u);
    Product(u * u, u);
    Product(u * u, s);
    Product(s, s);
    Product(u, s * s);
    assert s * s > 0.0;
    assert s * s * s > 0.0;
    assert 3.0 * u * s * s == 3.0 * (u * (s * s)) && 3.0 * u * u * s == 3.0 * (u * u * s);
  }

  /** A curve whose other points all lie below its first is below it from the start on. */
  lemma CurveStaysBelow(a: real, b: real, c: real, d: real, s: real)
    requires b < a && c < a && d < a && 0.0 < s <= 1.0
    ensures Bezier(a, b, c, d, s) < a
  {
    hide Bezier;
    Weights(s);
    BezierIs(a, b, c, d, s);
    var u := 1.0 - s;
    WeightedBelow(a, b, c, d, u * u * u, 3.0 * u * u * s, 3.0 * u * s * s, s * s * s);
  }

  lemma BezierIs(a: real, b: real, c: real, d: real, s: real)
    ensures var u := 1.0 - s;
            Bezier(a, b, c, d, s) == (u * u * u) * a + (3.0 * u * u * s) * b + (3.0 * u * s * s) * c + (s * s * s) * d
  {
  }

  lemma WeightedBelow(a: real, b: real, c: real, d: real, w0: real, w1: real, w2: real, w3: real)
    requires w0 + w1 + w2 + w3 == 1.0 && w1 >= 0.0 && w2 >= 0.0 && w3 > 0.0 && b < a && c < a && d < a
    ensures w0 * a + w1 * b + w2 * c + w3 * d < a
  {
    Product(w1, a - b);
    Product(w2, a - c);
    Positive(w3, a - d);
    assert w0 * a == a - w1 * a - w2 * a - w3 * a;
  }

  lemma Positive(x: real, y: real)
    requires x > 0.0 && y > 0.0
    ensures x * y > 0.0
  {
  }

  /** For any slot above and to the left of the logo the flight rises and sweeps left from the first moment on, and ends in
      the slot. */
  lemma TheFlightRisesAndSweepsLeft(start: Point, end: Point, s: real)
    requires end.x < start.x && end.y < start.y && 0.0 < s <= 1.0
    ensures var path := CreateTrailPath(start, end);
            At(path, s).x < start.x && At(path, s).y < start.y && At(path, 0.0) == start && At(path, 1.0) == end
  {
    var path := CreateTrailPath(start, end);
    BezierEnds(path.start.x, path.p1.x, path.p2.x, path.end.x);
    BezierEnds(path.start.y, path.p1.y, path.p2.y, path.end.y);
    hide Bezier;
    CurveStaysBelow(path.start.x, path.p1.x, path.p2.x, path.end.x, s);
    CurveStaysBelow(path.start.y, path.p1.y, path.p2.y, path.end.y, s);
  }

  /** It leaves almost straight up: at first it rises by at least 60 pixels for each 2 percent of the way to the left. */
  lemma TheFlightLeavesUpwards(start: Point, end: Point)
    ensures var path := CreateTrailPath(start, end);
            && Slope(path.start.y, path.p1.y, path.p2.y, path.end.y, 0.0) <= -180.0
            && Slope(path.start.x, path.p1.x, path.p2.x, path.end.x, 0.0) == 0.06 * (end.x - start.x)
  {
  }

  // ---------------------------------------------------------------------------------------------
  // Tangents
  // ---------------------------------------------------------------------------------------------

  lemma BezierIsCubic(a: real, b: real, c: real, d: real, s: real)
    ensures Bezier(a, b, c, d, s) == a + 3.0 * (b - a) * s + 3.0 * (a - 2.0 * b + c) * (s * s) + (d - 3.0 * c + 3.0 * b - a) * (s * s * s)
  {
    var u, q, r := 1.0 - s, s * s, s * s * s;
    assert u * u * u == 1.0 - 3.0 * s + 3.0 * q - r;
    assert 3.0 * u * u * s == 3.0 * s - 6.0 * q + 3.0 * r;
    assert 3.0 * u * s * s == 3.0 * q - 3.0 * r;
    BezierIs(a, b, c, d, s);
    hide Bezier;
    Collected(a, b, c, d, s, q, r);
  }

  lemma Collected(a: real, b: real, c: real, d: real, s: real, q: real, r: real)
    ensures (1.0 - 3.0 * s + 3.0 * q - r) * a + (3.0 * s - 6.0 * q + 3.0 * r) * b + (3.0 * q - 3.0 * r) * c + r * d
         == a + 3.0 * (b - a) * s + 3.0 * (a - 2.0 * b + c) * q + (d - 3.0 * c + 3.0 * b - a) * r
  {
  }

  lemma SlopeIsQuadratic(a: real, b: real, c: real, d: real, s: real)
    ensures Slope(a, b, c, d, s) == 3.0 * (b - a) + 2.0 * (3.0 * (a - 2.0 * b + c)) * s + 3.0 * (d - 3.0 * c + 3.0 * b - a) * (s * s)
  {
    var u, q := 1.0 - s, s * s;
    assert 3.0 * u * u == 3.0 - 6.0 * s + 3.0 * q;
    assert 6.0 * u * s == 6.0 * s - 6.0 * q;
    assert 3.0 * s * s == 3.0 * q;
    SlopeCollected(b - a, c - b, d - c, s, q);
  }

  lemma SlopeCollected(x: real, y: real, z: real, s: real, q: real)
    ensures (3.0 - 6.0 * s + 3.0 * q) * x + (6.0 * s - 6.0 * q) * y + 3.0 * q * z
         == 3.0 * x + 6.0 * (y - x) * s + 3.0 * (z - 2.0 * y + x) * q
  {
  }

  /** The slope is the derivative of the curve: both are polynomials of the way gone, and the terms of the one are those of
      the other, derived. */
  lemma SlopeIsTheDerivative(a: real, b: real, c: real, d: real, s: real)
    ensures var k1, k2, k3 := 3.0 * (b - a), 3.0 * (a - 2.0 * b + c), d - 3.0 * c + 3.0 * b - a;
            && Bezier(a, b, c, d, s) == a + k1 * s + k2 * (s * s) + k3 * (s * s * s)
            && Slope(a, b, c, d, s) == k1 + 2.0 * k2 * s + 3.0 * k3 * (s * s)
  {
    BezierIsCubic(a, b, c, d, s);
    SlopeIsQuadratic(a, b, c, d, s);
    hide Bezier;
    hide Slope;
  }

  /** `hypot` is the length of a vector. */
  ghost predicate HypotOk(maths: Maths) {
    forall x, y :: maths.hypot(x, y) >= 0.0 && maths.hypot(x, y) * maths.hypot(x, y) == x * x + y * y
  }

  /** The tangent points along the curve and has length 1, except where the curve stands still: there it is none. */
  lemma TangentsAreUnit(path: Path, maths: Maths, s: real)
    requires HypotOk(maths)
    ensures var x, y := Slope(path.start.x, path.p1.x, path.p2.x, path.end.x, s), Slope(path.start.y, path.p1.y, path.p2.y, path.end.y, s);
            var t, l := Tangent(path, maths, s), maths.hypot(x, y);
            && t.x * l == x && t.y * l == y
            && (x != 0.0 || y != 0.0 ==> l > 0.0 && t.x * t.x + t.y * t.y == 1.0)
            && (x == 0.0 && y == 0.0 ==> t == Point(0.0, 0.0))
  {
    var x, y := Slope(path.start.x, path.p1.x, path.p2.x, path.end.x, s), Slope(path.start.y, path.p1.y, path.p2.y, path.end.y, s);
    var t, l := Tangent(path, maths, s), maths.hypot(x, y);
    hide Slope;
    var a, b, c := x * x, y * y, l * l;
    if l == 0.0 {
      assert c == 0.0;
      NoLength(x, y, a, b);
    } else {
      UnitVector(x, y, l, t.x, t.y, c);
    }
  }

  lemma SameSign(x: real, y: real, p: real)
    requires p == x * y && ((x > 0.0 && y > 0.0) || (x < 0.0 && y < 0.0))
    ensures p > 0.0
  {
  }

  lemma NoLength(x: real, y: real, p: real, q: real)
    requires p == x * x && q == y * y && p + q == 0.0
    ensures x == 0.0 && y == 0.0
  {
    if x != 0.0 { SameSign(x, x, p); }
    if y != 0.0 { SameSign(y, y, q); }
    assert p >= 0.0 && q >= 0.0;
  }

  lemma SquareOfProduct(u: real, l: real, x: real, a: real, r: real, p: real)
    requires x == u * l && a == u * u && r == l * l && p == x * x
    ensures a * r == p
  {
    assert p == (u * l) * (u * l);
  }

  lemma Distributed(a: real, b: real, r: real, p: real, q: real)
    requires p == a * r && q == b * r
    ensures p + q == (a + b) * r
  {
  }

  lemma OnlyOne(w: real, q: real, p: real)
    requires q > 0.0 && p == w * q && p == q
    ensures w == 1.0
  {
    assert w * q / q == w && q / q == 1.0;
  }

  lemma UnitVector(x: real, y: real, l: real, u: real, v: real, r: real)
    requires l > 0.0 && r == l * l && r == x * x + y * y && u * l == x && v * l == y
    ensures u * u + v * v == 1.0
  {
    var p, q, a, b := x * x, y * y, u * u, v * v;
    SquareOfProduct(u, l, x, a, r, p);
    SquareOfProduct(v, l, y, b, r, q);
    SameSign(l, l, r);
    Distributed(a, b, r, p, q);
    OnlyOne(a + b, r, p + q);
  }

  // ---------------------------------------------------------------------------------------------
  // The order of release
  // ---------------------------------------------------------------------------------------------

  /** A sample is swept before another: it lies further up and to the left along the direction of the sweep. */
  predicate SweptBefore(a: Sample, b: Sample) {
    78.0 * a.u + 344.0 * a.v <= 78.0 * b.u + 344.0 * b.v
  }

  lemma OrderFalls(p: real, q: real, low: real, high: real)
    requires low <= q <= p <= high
    ensures 0.0 <= Order(p, low, high) <= Order(q, low, high) <= 1.0
  {
    OrderIsBounded(p, low, high);
    OrderIsBounded(q, low, high);
    if high - low != 0.0 {
      QuotientsGrow(q - low, p - low, high - low);
    }
  }

  /** Whatever the numbers, the particles leave as the sweep reaches them, but for a jitter of 0.012; the first leaves
      within that of 0.1, the last of 0.22. */
  lemma TheSweepReleasesInOrder(samples: seq<Sample>, i: nat, j: nat, hero: Box, maths: Maths, draws: nat -> real, calls: nat)
    requires i < |samples| && j < |samples| && UnitStream(draws) && SweptBefore(samples[i], samples[j])
    ensures var first, then' := ParticleAt(samples, i, hero, maths, draws, calls), ParticleAt(samples, j, hero, maths, draws, calls);
            && first.r < then'.r + 0.012
            && 0.1 <= first.r < 0.232
            && ((forall k :: 0 <= k < |samples| ==> SweptBefore(samples[i], samples[k])) && Lowest(samples) < Highest(samples) ==> first.r < 0.112)
            && ((forall k :: 0 <= k < |samples| ==> SweptBefore(samples[k], samples[j])) && Lowest(samples) < Highest(samples) ==> then'.r >= 0.22)
  {
    var low, high := Lowest(samples), Highest(samples);
    OrderFalls(Projection(samples[i]), Projection(samples[j]), low, high);
    if forall k :: 0 <= k < |samples| ==> SweptBefore(samples[i], samples[k]) {
      FirstIsHighest(samples, i);
    }
    if forall k :: 0 <= k < |samples| ==> SweptBefore(samples[k], samples[j]) {
      LastIsLowest(samples, j);
    }
    OrderAtTheEnds(low, high);
    hide Order;
    hide Projection;
    hide Lowest;
    hide Highest;
    hide SweptBefore;
  }

  lemma OrderAtTheEnds(low: real, high: real)
    ensures low < high ==> Order(high, low, high) == 0.0 && Order(low, low, high) == 1.0
  {
    if low < high {
      WholeQuotient(high - low);
    }
  }

  lemma WholeQuotient(d: real)
    requires d > 0.0
    ensures d / d == 1.0 && 0.0 / d == 0.0
  {
  }

  lemma {:induction false} HighestIsOne(samples: seq<Sample>)
    requires samples != []
    ensures exists k :: 0 <= k < |samples| && Highest(samples) == Projection(samples[k])
    decreases |samples|
  {
    var n := |samples| - 1;
    if n > 0 {
      HighestIsOne(samples[..n]);
      hide Projection;
      var k :| 0 <= k < n && Highest(samples[..n]) == Projection(samples[..n][k]);
      assert samples[..n][k] == samples[k];
      assert Highest(samples) == Projection(samples[k]) || Highest(samples) == Projection(samples[n]);
    } else {
      assert Highest(samples) == Projection(samples[0]);
    }
  }

  lemma {:induction false} LowestIsOne(samples: seq<Sample>)
    requires samples != []
    ensures exists k :: 0 <= k < |samples| && Lowest(samples) == Projection(samples[k])
    decreases |samples|
  {
    var n := |samples| - 1;
    if n > 0 {
      LowestIsOne(samples[..n]);
      hide Projection;
      var k :| 0 <= k < n && Lowest(samples[..n]) == Projection(samples[..n][k]);
      assert samples[..n][k] == samples[k];
      assert Lowest(samples) == Projection(samples[k]) || Lowest(samples) == Projection(samples[n]);
    } else {
      assert Lowest(samples) == Projection(samples[0]);
    }
  }

  lemma FirstIsHighest(samples: seq<Sample>, i: nat)
    requires i < |samples| && forall k :: 0 <= k < |samples| ==> SweptBefore(samples[i], samples[k])
    ensures Projection(samples[i]) == Highest(samples)
  {
    HighestIsOne(samples);
    var k :| 0 <= k < |samples| && Highest(samples) == Projection(samples[k]);
    assert SweptBefore(samples[i], samples[k]);
  }

  lemma LastIsLowest(samples: seq<Sample>, j: nat)
    requires j < |samples| && forall k :: 0 <= k < |samples| ==> SweptBefore(samples[k], samples[j])
    ensures Projection(samples[j]) == Lowest(samples)
  {
    LowestIsOne(samples);
    var k :| 0 <= k < |samples| && Lowest(samples) == Projection(samples[k]);
    assert SweptBefore(samples[k], samples[j]);
  }

  /** A particle keeps the place of its pixel around the middle of the logo, and its colour. */
  lemma AParticleIsItsPixel(samples: seq<Sample>, i: nat, hero: Box, maths: Maths, draws: nat -> real, calls: nat)
    requires i < |samples|
    ensures var p := ParticleAt(samples, i, hero, maths, draws, calls);
            && p.col == samples[i].colour
            && p.lx == samples[i].u * hero.width - hero.width / 2.0 && p.ly == samples[i].v * hero.height - hero.height / 2.0
  {
  }

  /** A number drawn is a word of 32 bits, scaled to below 1; these are the first words of the seed the page uses and of the
      next one. */
  lemma FirstWords(seed: int, n: nat)
    ensures Draw(seed, n) * 4294967296.0 == Mixed(Bits(StateAfter(seed, n))) as int as real
    ensures StateAfter(11, 1) == 1831565824 && Mixed(1831565824) == 2197249643
    ensures StateAfter(12, 1) == 1831565825 && Mixed(1831565825) == 1237598750
  {
    hide Mixed;
    hide Bits;
    FirstMixes();
    WordOf(Mixed(Bits(StateAfter(seed, n))));
    assert StateAfter(11, 0) == 11 && StateAfter(12, 0) == 12;
  }

  lemma WordOf(word: bv32)
    ensures SeededRandom.Scaled(word) * 4294967296.0 == word as int as real
  {
  }

  lemma FirstMixes()
    ensures Mixed(1831565824) == 2197249643 && Mixed(1831565825) == 1237598750
  {
  }

  // ---------------------------------------------------------------------------------------------
  // Easing
  // ---------------------------------------------------------------------------------------------

  /** The smooth step is symmetric about its middle and starts flat, so it ends flat too. */
  lemma SmoothStartsAndEndsFlat(k: real, square: real)
    requires 0.0 <= k <= 1.0 && square == k * k
    ensures Smoothed(k) + Smoothed(1.0 - k) == 1.0
    ensures square <= Smoothed(k) <= 3.0 * square
  {
    assert Smoothed(k) == square * (3.0 - 2.0 * k);
    Product(square, k);
    Product(square, 1.0 - k);
    assert square * (3.0 - 2.0 * k) == 3.0 * square - 2.0 * (square * k);
    assert square * (1.0 - k) == square - square * k;
    SmoothIsSymmetric(k, square, square * k);
  }

  lemma SmoothIsSymmetric(k: real, square: real, cube: real)
    requires square == k * k && cube == square * k
    ensures Smoothed(k) + Smoothed(1.0 - k) == 1.0
  {
    var u := 1.0 - k;
    assert u * u == 1.0 - 2.0 * k + square;
    assert (1.0 - 2.0 * k + square) * (1.0 + 2.0 * k) == 1.0 - 3.0 * square + 2.0 * cube;
    assert Smoothed(u) == (u * u) * (1.0 + 2.0 * k);
    assert Smoothed(k) == 3.0 * square - 2.0 * cube;
  }

  /** The easing is symmetric about its middle; up to there half the way takes it an eighth as far. */
  lemma EasingSpeedsUpAndSlowsDown(x: real)
    requires 0.0 <= x < 0.5
    ensures EaseInOut(x) + EaseInOut(1.0 - x) == 1.0
    ensures EaseInOut(x) == 8.0 * EaseInOut(x / 2.0)
    ensures EaseInOut(0.5) == 0.5
  {
    assert Cube(-2.0 * (1.0 - x) + 2.0) == Cube(2.0 * x);
  }

  // ---------------------------------------------------------------------------------------------
  // How far a particle strays
  // ---------------------------------------------------------------------------------------------

  lemma Between(x: real, low: real, high: real, k: real, lowest: real, product: real, highest: real)
    requires low <= x <= high && k >= 0.0 && lowest == low * k && product == x * k && highest == high * k
    ensures lowest <= product <= highest
  {
    Product(x - low, k);
    Product(high - x, k);
  }

  /** What the numbers make of a particle keeps within bounds that grow with the logo. */
  lemma ParticlesAreBounded(samples: seq<Sample>, i: nat, hero: Box, maths: Maths, draws: nat -> real, calls: nat)
    requires i < |samples| && UnitStream(draws) && hero.width > 0.0
    ensures var p, unit := ParticleAt(samples, i, hero, maths, draws, calls), hero.width / 78.0;
            && -36.0 * unit <= p.lat <= 36.0 * unit && -11.0 * unit <= p.al <= 11.0 * unit
            && 0.0 <= p.ph < 6.28 && 0.5 <= p.a0 < 0.95 && 0.938 <= p.sz <= 3.808
  {
    var first := calls + 11 * i + 1;
    var order := Order(Projection(samples[i]), Lowest(samples), Highest(samples));
    hide Order;
    hide Projection;
    hide Lowest;
    hide Highest;
    hide ParticleFrom;
    OneIsBounded(samples[i], order, hero, maths, draws(first), draws(first + 1), draws(first + 2), draws(first + 3), draws(first + 4),
                 draws(first + 5), draws(first + 6), draws(first + 7), draws(first + 8), draws(first + 9), draws(first + 10));
  }

  lemma OneIsBounded(sample: Sample, order: real, hero: Box, maths: Maths, depth: real, released: real, lagging: real, lasting: real,
                     side0: real, side1: real, side2: real, ahead: real, phase: real, alpha: real, bright: real)
    requires hero.width > 0.0 && 0.0 <= depth < 1.0 && 0.0 <= side0 < 1.0 && 0.0 <= side1 < 1.0 && 0.0 <= side2 < 1.0
    requires 0.0 <= ahead < 1.0 && 0.0 <= phase < 1.0 && 0.0 <= alpha < 1.0
    ensures var p := ParticleFrom(sample, order, hero, maths, depth, released, lagging, lasting, side0, side1, side2, ahead, phase, alpha, bright);
            var unit := hero.width / 78.0;
            && -36.0 * unit <= p.lat <= 36.0 * unit && -11.0 * unit <= p.al <= 11.0 * unit
            && 0.0 <= p.ph < 6.28 && 0.5 <= p.a0 < 0.95 && 0.938 <= p.sz <= 3.808
  {
    var p := ParticleFrom(sample, order, hero, maths, depth, released, lagging, lasting, side0, side1, side2, ahead, phase, alpha, bright);
    var unit, z := hero.width / 78.0, 0.45 + depth * 1.15;
    LateralIsBounded(side0 + side1 + side2 - 1.5, z, unit, p.lat);
    Between((ahead - 0.5) * 22.0, -11.0, 11.0, unit, -11.0 * unit, p.al, 11.0 * unit);
    SizeIsBounded(0.7 + z * 1.05, Min(1.6, Max(0.8, unit)), p.sz);
  }

  lemma LateralIsBounded(side: real, z: real, unit: real, lat: real)
    requires -1.5 <= side <= 1.5 && 0.45 <= z <= 1.6 && unit > 0.0 && lat == side * 15.0 * z * unit
    ensures -36.0 * unit <= lat <= 36.0 * unit
  {
    var across := side * 15.0 * z;
    Between(side * 15.0, -22.5, 22.5, z, -22.5 * z, across, 22.5 * z);
    Between(across, -36.0, 36.0, unit, -36.0 * unit, lat, 36.0 * unit);
  }

  lemma SizeIsBounded(w: real, k: real, size: real)
    requires 1.1725 <= w <= 2.38 && 0.8 <= k <= 1.6 && size == w * k
    ensures 0.938 <= size <= 3.808
  {
    Between(w, 1.1725, 2.38, k, 1.1725 * k, size, 2.38 * k);
  }

  /** For sines within their bounds a particle swings by no more than its own width and 2.2 pixels, and by so much at the
      most. */
  lemma SwingsAreBounded(p: Particle, maths: Maths, s: real)
    requires 0.0 <= Wide(maths, s) <= 1.0 && -1.0 <= Ripple(p, maths, s) <= 1.0
    ensures -(Abs(p.lat) + 2.2) <= Swing(p, maths, s) <= Abs(p.lat) + 2.2
    ensures Wide(maths, s) == 0.0 && Ripple(p, maths, s) == 0.0 ==> Swing(p, maths, s) == 0.55 * p.lat
    ensures Wide(maths, s) == 1.0 && Ripple(p, maths, s) == 1.0 ==> Swing(p, maths, s) == p.lat + 2.2
  {
    hide Wide;
    hide Ripple;
    var wide, ripple := Wide(maths, s), Ripple(p, maths, s);
    SwingEnds(p.lat);
    if p.lat >= 0.0 {
      SwungRight(p.lat, wide, ripple, 0.55 + 0.45 * wide);
    } else {
      SwungLeft(p.lat, wide, ripple);
    }
    hide Swung;
  }

  lemma Times(l: real, w: real, q: real)
    requires 0.0 <= w <= 1.0 && l >= 0.0 && q == l * w
    ensures 0.0 <= q <= l
  {
    assert l * w >= 0.0;
    assert l * (1.0 - w) >= 0.0;
  }

  lemma SwungRight(lat: real, wide: real, ripple: real, w: real)
    requires 0.0 <= wide <= 1.0 && -1.0 <= ripple <= 1.0 && lat >= 0.0 && w == 0.55 + 0.45 * wide
    ensures -(lat + 2.2) <= Swung(lat, wide, ripple) <= lat + 2.2
  {
    Times(lat, w, lat * w);
    var q := lat * w;
    assert Swung(lat, wide, ripple) == q + ripple * 2.2;
  }

  lemma SwungLeft(lat: real, wide: real, ripple: real)
    requires 0.0 <= wide <= 1.0 && -1.0 <= ripple <= 1.0 && lat < 0.0
    ensures lat - 2.2 <= Swung(lat, wide, ripple) <= 2.2 - lat
  {
    SwungRight(-lat, wide, -ripple, 0.55 + 0.45 * wide);
    assert Swung(lat, wide, ripple) == -Swung(-lat, wide, -ripple);
  }

  lemma SwingEnds(lat: real)
    ensures Swung(lat, 0.0, 0.0) == 0.55 * lat && Swung(lat, 1.0, 1.0) == lat + 2.2
  {
  }

  /** While it flows a particle leaves the place that the logo's shape gives it along the tangent by `al`, and across it, to
      the left, by its swing; each as far as it flows. */
  lemma WhereAParticleStrays(p: Particle, scene: Scene, maths: Maths, s: real)
    ensures var at, t, placed := At(scene.path, s), Tangent(scene.path, maths, s), PlacedAt(p, scene, maths, s);
            var shape := (1.0 + (scene.endScale - 1.0) * s) * KeepShape(s);
            var ahead, across := p.al * Flowing(s), Swing(p, maths, s) * Flowing(s);
            && placed.x == at.x + p.lx * shape + t.x * ahead - t.y * across
            && placed.y == at.y + p.ly * shape + t.y * ahead + t.x * across
  {
    hide At;
    hide Tangent;
    hide Swing;
    hide Smooth;
    hide KeepShape;
    hide Flowing;
    var scale, keep := Scale(scene.endScale, s), KeepShape(s);
    assert p.lx * scale * keep == p.lx * (scale * keep) && p.ly * scale * keep == p.ly * (scale * keep);
  }

  /** What a particle does not keep of the logo's shape flows: nothing at both ends, everything from 0.3 to 0.72, and only
      there. */
  lemma WhatIsNotKeptFlows(s: real)
    ensures KeepShape(s) + Flowing(s) == 1.0 && 0.0 <= Flowing(s) <= 1.0
    ensures Flowing(s) == 1.0 <==> 0.3 <= s <= 0.72
    ensures Flowing(s) == 0.0 <==> s <= 0.0 || s >= 1.0
  {
    Spread(s);
    Gather(s);
    hide Smooth;
    KeptAndFlowing(Smooth(0.0, 0.3, s), Smooth(0.72, 1.0, s), Flowing(s));
  }

  lemma KeptAndFlowing(spread: real, gather: real, flowing: real)
    requires 0.0 <= spread <= 1.0 && 0.0 <= gather <= 1.0 && flowing == spread * (1.0 - gather)
    requires spread == 1.0 || gather == 0.0
    ensures 1.0 - spread + gather + flowing == 1.0 && flowing == if spread == 1.0 then 1.0 - gather else spread
  {
    if gather == 0.0 {
      assert 1.0 - gather == 1.0;
    }
  }

  lemma Spread(s: real)
    ensures 0.0 <= Smooth(0.0, 0.3, s) <= 1.0
    ensures Smooth(0.0, 0.3, s) == 1.0 <==> s >= 0.3
    ensures Smooth(0.0, 0.3, s) == 0.0 <==> s <= 0.0
  {
    StepIs(Clamp01((s - 0.0) / (0.3 - 0.0)));
  }

  lemma Gather(s: real)
    ensures 0.0 <= Smooth(0.72, 1.0, s) <= 1.0
    ensures Smooth(0.72, 1.0, s) == 1.0 <==> s >= 1.0
    ensures Smooth(0.72, 1.0, s) == 0.0 <==> s <= 0.72
  {
    StepIs(Clamp01((s - 0.72) / (1.0 - 0.72)));
  }

  lemma StepIs(k: real)
    requires 0.0 <= k <= 1.0
    ensures 0.0 <= Smoothed(k) <= 1.0
    ensures Smoothed(k) == 0.0 <==> k == 0.0
    ensures Smoothed(k) == 1.0 <==> k == 1.0
  {
    hide Smoothed;
    var u := 1.0 - k;
    var square, rest := k * k, u * u;
    NoSquare(k, square);
    NoSquare(u, rest);
    SmoothStartsAndEndsFlat(k, square);
    SmoothStartsAndEndsFlat(u, rest);
  }

  lemma NoSquare(x: real, square: real)
    requires square == x * x
    ensures square == 0.0 <==> x == 0.0
  {
    if x != 0.0 {
      SameSign(x, x, square);
    }
  }

  /** Two streams have the same numbers at these calls. */
  ghost predicate Agree(d: nat -> real, e: nat -> real, first: nat, calls: set<nat>) {
    forall k | k in calls :: d(first + k) == e(first + k)
  }

  /** Of its eleven numbers each makes its own of a particle, whatever the others are: the first how near it is, the next
      when it leaves, lags and how long it flies, three how far it is to the side, and one each how far ahead, its phase, its
      strength, and whether it is bright. */
  lemma ATraitHasItsNumbers(samples: seq<Sample>, i: nat, hero: Box, maths: Maths, d: nat -> real, e: nat -> real, calls: nat)
    requires i < |samples|
    ensures var p, q := ParticleAt(samples, i, hero, maths, d, calls), ParticleAt(samples, i, hero, maths, e, calls);
            var first := calls + 11 * i + 1;
            && (Agree(d, e, first, {0}) ==> p.sz == q.sz)
            && (Agree(d, e, first, {1}) ==> p.r == q.r)
            && (Agree(d, e, first, {2}) ==> p.lag == q.lag)
            && (Agree(d, e, first, {3}) ==> p.dur == q.dur)
            && (Agree(d, e, first, {0, 4, 5, 6}) ==> p.lat == q.lat)
            && (Agree(d, e, first, {7}) ==> p.al == q.al)
            && (Agree(d, e, first, {8}) ==> p.ph == q.ph)
            && (Agree(d, e, first, {9}) ==> p.a0 == q.a0)
            && (p.bright <==> d(first + 10) < 0.22)
  {
    hide Order;
    hide Projection;
    hide Lowest;
    hide Highest;
    hide Unit;
    hide FromMiddle;
    hide Sideways;
    hide Ahead;
    hide Size;
    var first := calls + 11 * i + 1;
    assert d(first) == d(first + 0) && e(first) == e(first + 0);
  }
}
