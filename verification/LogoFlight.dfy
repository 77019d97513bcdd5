/** The particles of the logo trail and where each is at any progress (apps/web/lib/motion/logo-trail.ts). */
module LogoFlight {
  import opened SeededRandom
  import opened LogoTrail

  datatype Particle = Particle(
    lx: real, ly: real,
    r: real, lag: real, dur: real,
    lat: real, al: real, ph: real,
    sz: real, a0: real, col: Colour, bright: bool)

  /** The functions of the standard library the trail uses. */
  datatype Maths = Maths(sin: real -> real, hypot: (real, real) -> real, pi: real, power: real -> real)

  /** `power(x)` is `Math.pow(x, 1.5)`. */
  ghost predicate PowersOk(maths: Maths) {
    forall x :: x >= 0.0 ==> maths.power(x) >= 0.0 && maths.power(x) * maths.power(x) == x * x * x
  }

  // ---------------------------------------------------------------------------------------------
  // Building the particles
  // ---------------------------------------------------------------------------------------------

  /** How far along the sweep a sample lies. */
  function Projection(sample: Sample): real {
    -0.25 * (sample.u - 0.5) * 78.0 - (sample.v - 0.5) * 86.0
  }

  function Lowest(samples: seq<Sample>): (low: real)
    requires samples != []
    ensures forall i :: 0 <= i < |samples| ==> low <= Projection(samples[i])
  {
    var n := |samples| - 1;
    if n == 0 then Projection(samples[0]) else Min(Lowest(samples[..n]), Projection(samples[n]))
  }

  function Highest(samples: seq<Sample>): (high: real)
    requires samples != []
    ensures forall i :: 0 <= i < |samples| ==> Projection(samples[i]) <= high
  {
    var n := |samples| - 1;
    if n == 0 then Projection(samples[0]) else Max(Highest(samples[..n]), Projection(samples[n]))
  }

  /** `1 - (projection - min) / (max - min || 1)`: 1 for the sample released last. */
  function Order(projection: real, low: real, high: real): real {
    var span := if high - low == 0.0 then 1.0 else high - low;
    1.0 - (projection - low) / span
  }

  /** How far from the middle a point of an image lies, along a side of this length. */
  function FromMiddle(fraction: real, length: real): real {
    (fraction - 0.5) * length
  }

  function Unit(hero: Box): real {
    hero.width / 78.0
  }

  function Sideways(sides: real, z: real, unit: real): real {
    (sides - 1.5) * 15.0 * z * unit
  }

  function Ahead(ahead: real, unit: real): real {
    (ahead - 0.5) * 22.0 * unit
  }

  function Size(z: real, unit: real): real {
    (0.7 + z * 1.05) * Min(1.6, Max(0.8, unit))
  }

  /** What a particle is made of: its sample, and 11 numbers in the order they are drawn. */
  function ParticleFrom(sample: Sample, order: real, hero: Box, maths: Maths, depth: real, released: real, lagging: real, lasting: real,
                        side0: real, side1: real, side2: real, ahead: real, phase: real, alpha: real, bright: real): Particle {
    var unit := Unit(hero);
    var z := 0.45 + depth * 1.15;
    Particle(
      FromMiddle(sample.u, hero.width),
      FromMiddle(sample.v, hero.height),
      0.1 + 0.12 * order + released * 0.012,
      0.02 + 0.12 * maths.power(lagging),
      0.5 + lasting * 0.04,
      Sideways(side0 + side1 + side2, z, unit),
      Ahead(ahead, unit),
      phase * 6.28,
      Size(z, unit),
      0.5 + alpha * 0.45,
      sample.colour,
      bright < 0.22)
  }

  function ParticleOf(sample: Sample, order: real, hero: Box, maths: Maths, draws: nat -> real, first: nat): Particle {
    ParticleFrom(sample, order, hero, maths, draws(first), draws(first + 1), draws(first + 2), draws(first + 3),
                 draws(first + 4), draws(first + 5), draws(first + 6), draws(first + 7), draws(first + 8), draws(first + 9), draws(first + 10))
  }

  /** The particle of sample `i`, when the generator has been called `calls` times before. */
  function ParticleAt(samples: seq<Sample>, i: nat, hero: Box, maths: Maths, draws: nat -> real, calls: nat): Particle
    requires i < |samples|
  {
    ParticleOf(samples[i], Order(Projection(samples[i]), Lowest(samples), Highest(samples)), hero, maths, draws, calls + 11 * i + 1)
  }

  method TakeParticle(sample: Sample, order: real, hero: Box, maths: Maths, random: Generator) returns (particle: Particle)
    requires random.Valid()
    modifies random
    ensures random.Valid() && random.calls == old(random.calls) + 11
    ensures particle == ParticleOf(sample, order, hero, maths, Stream(random.seed), old(random.calls) + 1)
  {
    hide Draw;
    hide StateAfter;
    hide ParticleFrom;
    var depth := random.Next();
    var released := random.Next();
    var lagging := random.Next();
    var lasting := random.Next();
    var side0 := random.Next();
    var side1 := random.Next();
    var side2 := random.Next();
    var ahead := random.Next();
    var phase := random.Next();
    var alpha := random.Next();
    var bright := random.Next();
    particle := ParticleFrom(sample, order, hero, maths, depth, released, lagging, lasting, side0, side1, side2, ahead, phase, alpha, bright);
  }

  method BuildParticles(samples: seq<Sample>, hero: Box, maths: Maths, random: Generator) returns (particles: seq<Particle>)
    requires random.Valid()
    modifies random
    ensures random.Valid() && random.calls == old(random.calls) + 11 * |samples|
    ensures |particles| == |samples|
    ensures forall i :: 0 <= i < |samples| ==> particles[i] == ParticleAt(samples, i, hero, maths, Stream(random.seed), old(random.calls))
  {
    hide Draw;
    hide StateAfter;
    hide ParticleOf;
    hide Lowest;
    hide Highest;
    hide Order;
    hide Projection;
    particles := [];
    if samples == [] { return; }
    var low, high := Lowest(samples), Highest(samples);
    for k := 0 to |samples|
      invariant random.Valid() && random.calls == old(random.calls) + 11 * k && |particles| == k
      invariant forall i :: 0 <= i < k ==> particles[i] == ParticleAt(samples, i, hero, maths, Stream(random.seed), old(random.calls))
    {
      var particle := TakeParticle(samples[k], Order(Projection(samples[k]), low, high), hero, maths, random);
      particles := particles + [particle];
    }
  }

  lemma OrderIsBounded(projection: real, low: real, high: real)
    requires low <= projection <= high
    ensures 0.0 <= Order(projection, low, high) <= 1.0
  {
    if high - low != 0.0 {
      QuotientsGrow(0.0, projection - low, high - low);
      QuotientsGrow(projection - low, high - low, high - low);
      assert 0.0 / (high - low) == 0.0 && (high - low) / (high - low) == 1.0;
    }
  }

  lemma PowerIsBounded(maths: Maths, x: real)
    requires PowersOk(maths) && 0.0 <= x < 1.0
    ensures 0.0 <= maths.power(x) < 1.0
  {
    var p := maths.power(x);
    Product(x, 1.0 - x);
    Product(x * x, 1.0 - x);
    assert x * x <= x && x * x * x <= x * x;
    if p >= 1.0 {
      Product(p - 1.0, p);
    }
  }

  /** The times of a particle as the numbers of the stream bound them; it lands before 0.912. */
  predicate Timed(p: Particle) {
    0.1 <= p.r < 0.232 && 0.02 <= p.lag < 0.14 && 0.5 <= p.dur < 0.54
  }

  lemma ParticlesAreTimed(samples: seq<Sample>, i: nat, hero: Box, maths: Maths, draws: nat -> real, calls: nat)
    requires i < |samples| && UnitStream(draws) && PowersOk(maths)
    ensures Timed(ParticleAt(samples, i, hero, maths, draws, calls))
  {
    OrderIsBounded(Projection(samples[i]), Lowest(samples), Highest(samples));
    PowerIsBounded(maths, draws(calls + 11 * i + 1 + 2));
  }

  // ---------------------------------------------------------------------------------------------
  // The path
  // ---------------------------------------------------------------------------------------------

  datatype Path = Path(start: Point, p1: Point, p2: Point, end: Point)

  function Abs(x: real): real {
    if x < 0.0 then -x else x
  }

  function CreateTrailPath(start: Point, end: Point): Path {
    var dx, dy := end.x - start.x, end.y - start.y;
    Path(start,
         Point(start.x + dx * 0.02, start.y - Max(60.0, Abs(dy) * 0.4)),
         Point(start.x + dx * 0.55, end.y - Max(20.0, Abs(dy) * 0.05)),
         end)
  }

  function Bezier(a: real, b: real, c: real, d: real, s: real): real {
    var u := 1.0 - s;
    u * u * u * a + 3.0 * u * u * s * b + 3.0 * u * s * s * c + s * s * s * d
  }

  function At(path: Path, s: real): Point {
    Point(Bezier(path.start.x, path.p1.x, path.p2.x, path.end.x, s),
          Bezier(path.start.y, path.p1.y, path.p2.y, path.end.y, s))
  }

  function Slope(a: real, b: real, c: real, d: real, s: real): real {
    var u := 1.0 - s;
    3.0 * u * u * (b - a) + 6.0 * u * s * (c - b) + 3.0 * s * s * (d - c)
  }

  function Tangent(path: Path, maths: Maths, s: real): Point {
    var x := Slope(path.start.x, path.p1.x, path.p2.x, path.end.x, s);
    var y := Slope(path.start.y, path.p1.y, path.p2.y, path.end.y, s);
    var length := if maths.hypot(x, y) == 0.0 then 1.0 else maths.hypot(x, y);
    Point(x / length, y / length)
  }

  lemma BezierEnds(a: real, b: real, c: real, d: real)
    ensures Bezier(a, b, c, d, 0.0) == a && Bezier(a, b, c, d, 1.0) == d
  {
  }

  // ---------------------------------------------------------------------------------------------
  // Where a particle is
  // ---------------------------------------------------------------------------------------------

  datatype Scene = Scene(path: Path, endScale: real)

  function Centre(box: Box): Point {
    Point(box.x + box.width / 2.0, box.y + box.height / 2.0)
  }

  /** The scene of a flight; neither box is empty (apps/web/components/logo-trail-canvas.tsx). */
  function SceneOf(hero: Box, slot: Box): Scene
    requires hero.height != 0.0
  {
    Scene(CreateTrailPath(Centre(hero), Centre(slot)), slot.height / hero.height)
  }

  function Progress(p: Particle, t: real): real
    requires Timed(p)
  {
    EaseInOut(Clamp01((t - p.r - p.lag) / p.dur))
  }

  /** How much of the logo's shape a particle keeps, and how freely it flows, at progress `s`. */
  function KeepShape(s: real): real {
    1.0 - Smooth(0.0, 0.3, s) + Smooth(0.72, 1.0, s)
  }

  function Flowing(s: real): real {
    Smooth(0.0, 0.3, s) * (1.0 - Smooth(0.72, 1.0, s))
  }

  function Wide(maths: Maths, s: real): real {
    maths.sin(s * maths.pi)
  }

  function Ripple(p: Particle, maths: Maths, s: real): real {
    maths.sin(s * 11.0 + p.ph)
  }

  function Swung(lat: real, wide: real, ripple: real): real {
    lat * (0.55 + 0.45 * wide) + ripple * 2.2
  }

  /** How far a free particle swings to the side. */
  function Swing(p: Particle, maths: Maths, s: real): real {
    Swung(p.lat, Wide(maths, s), Ripple(p, maths, s))
  }

  function Scale(endScale: real, s: real): real {
    1.0 + (endScale - 1.0) * s
  }

  /** A coordinate of the path, plus that of the logo's shape, plus what a flowing particle strays across and along. */
  function Coordinate(centre: real, offset: real, scale: real, keepShape: real, flowing: real,
                      across: real, swing: real, ahead: real, al: real): real {
    centre + offset * scale * keepShape + across * (swing * flowing) + ahead * (al * flowing)
  }

  function PlacedAt(p: Particle, scene: Scene, maths: Maths, s: real): Point {
    var centre, tangent := At(scene.path, s), Tangent(scene.path, maths, s);
    var scale, swing := Scale(scene.endScale, s), Swing(p, maths, s);
    Point(Coordinate(centre.x, p.lx, scale, KeepShape(s), Flowing(s), -tangent.y, swing, tangent.x, p.al),
          Coordinate(centre.y, p.ly, scale, KeepShape(s), Flowing(s), tangent.x, swing, tangent.y, p.al))
  }

  class Placed {
    var x: real
    var y: real
    var s: real

    method Place(p: Particle, scene: Scene, maths: Maths, t: real)
      requires Timed(p)
      modifies this
      ensures s == Progress(p, t)
      ensures Point(x, y) == PlacedAt(p, scene, maths, s)
    {
      hide EaseInOut;
      hide Clamp01;
      hide At;
      hide Tangent;
      hide Smooth;
      hide Swing;
      hide Scale;
      hide Coordinate;
      var progress := EaseInOut(Clamp01((t - p.r - p.lag) / p.dur));
      var centre, tangent := At(scene.path, progress), Tangent(scene.path, maths, progress);
      var spread, gather := Smooth(0.0, 0.3, progress), Smooth(0.72, 1.0, progress);
      var scale, swing := Scale(scene.endScale, progress), Swing(p, maths, progress);
      var keepShape, flowing := 1.0 - spread + gather, spread * (1.0 - gather);
      assert keepShape == KeepShape(progress) && flowing == Flowing(progress);
      hide KeepShape;
      hide Flowing;
      x := Coordinate(centre.x, p.lx, scale, keepShape, flowing, -tangent.y, swing, tangent.x, p.al);
      y := Coordinate(centre.y, p.ly, scale, keepShape, flowing, tangent.x, swing, tangent.y, p.al);
      s := progress;
    }
  }

  lemma ProgressGrows(p: Particle, t: real, later: real)
    requires Timed(p) && t <= later
    ensures 0.0 <= Progress(p, t) <= Progress(p, later) <= 1.0
    ensures t <= p.r + p.lag ==> Progress(p, t) == 0.0
    ensures t >= p.r + p.lag + p.dur ==> Progress(p, t) == 1.0
  {
    QuotientsGrow(t - p.r - p.lag, later - p.r - p.lag, p.dur);
    QuotientsGrow(t - p.r - p.lag, t - p.r - p.lag, p.dur);
    ClampGrows((t - p.r - p.lag) / p.dur, (later - p.r - p.lag) / p.dur);
    EaseInOutGrows(Clamp01((t - p.r - p.lag) / p.dur), Clamp01((later - p.r - p.lag) / p.dur));
    assert EaseInOut(0.0) == 0.0 && EaseInOut(1.0) == 1.0;
    hide EaseInOut;
    hide Clamp01;
  }

  lemma ShapeAtTheEnds(s: real)
    requires s == 0.0 || s == 1.0
    ensures KeepShape(s) == 1.0 && Flowing(s) == 0.0
  {
    hide Smooth;
    SmoothGrows(0.0, 0.3, s, s);
    SmoothGrows(0.72, 1.0, s, s);
  }

  lemma NothingStrayed(centre: real, offset: real, scale: real, across: real, swing: real, ahead: real, al: real)
    ensures Coordinate(centre, offset, scale, 1.0, 0.0, across, swing, ahead, al) == centre + offset * scale
  {
    assert swing * 0.0 == 0.0 && al * 0.0 == 0.0;
  }

  /** At both ends of its flight a particle is where the logo's shape has it. */
  /** The point with the given offsets from the centre, drawn to scale. */
  function Around(centre: Point, lx: real, ly: real, scale: real): Point {
    Point(centre.x + Scaled(lx, scale), centre.y + Scaled(ly, scale))
  }

  function Scaled(offset: real, scale: real): real {
    offset * scale
  }

  lemma PlacedAtAnEnd(p: Particle, scene: Scene, maths: Maths, s: real)
    requires s == 0.0 || s == 1.0
    ensures PlacedAt(p, scene, maths, s) == Around(At(scene.path, s), p.lx, p.ly, Scale(scene.endScale, s))
  {
    hide KeepShape;
    hide Flowing;
    hide Swing;
    hide Tangent;
    hide At;
    hide Scale;
    hide Coordinate;
    ShapeAtTheEnds(s);
    var centre, tangent := At(scene.path, s), Tangent(scene.path, maths, s);
    var scale, swing := Scale(scene.endScale, s), Swing(p, maths, s);
    NothingStrayed(centre.x, p.lx, scale, -tangent.y, swing, tangent.x, p.al);
    NothingStrayed(centre.y, p.ly, scale, tangent.x, swing, tangent.y, p.al);
  }

  lemma ScaleEnds(endScale: real)
    ensures Scale(endScale, 0.0) == 1.0 && Scale(endScale, 1.0) == endScale
  {
  }

  lemma PathEnds(path: Path)
    ensures At(path, 0.0) == path.start && At(path, 1.0) == path.end
  {
    BezierEnds(path.start.x, path.p1.x, path.p2.x, path.end.x);
    BezierEnds(path.start.y, path.p1.y, path.p2.y, path.end.y);
    hide Bezier;
  }

  // ---------------------------------------------------------------------------------------------
  // Every flight starts on the hero logo and lands in its slot
  // ---------------------------------------------------------------------------------------------

  /** A point of the hero logo on the page. */
  function PixelOf(hero: Box, sample: Sample): Point {
    Point(hero.x + sample.u * hero.width, hero.y + sample.v * hero.height)
  }

  /** For any samples and any stream of numbers: until its release, which is not before 0.12, a particle is exactly at
      its pixel of the hero logo. */
  lemma FlightsStartAtTheirPixels(samples: seq<Sample>, i: nat, hero: Box, slot: Box, maths: Maths, draws: nat -> real, calls: nat, p: Particle, t: real)
    requires i < |samples| && UnitStream(draws) && PowersOk(maths) && hero.height != 0.0
    requires p == ParticleAt(samples, i, hero, maths, draws, calls)
    ensures Timed(p) && p.r + p.lag >= 0.12
    ensures t <= p.r + p.lag ==> PlacedAt(p, SceneOf(hero, slot), maths, Progress(p, t)) == PixelOf(hero, samples[i])
  {
    ParticlesAreTimed(samples, i, hero, maths, draws, calls);
    PlacedParticle(samples, i, hero, maths, draws, calls);
    hide ParticleAt;
    if t <= p.r + p.lag {
      ProgressGrows(p, t, t);
      hide Progress;
      StartsAtThePixel(p, samples[i], hero, slot, maths);
    }
  }

  lemma StartsAtThePixel(p: Particle, sample: Sample, hero: Box, slot: Box, maths: Maths)
    requires hero.height != 0.0 && p.lx == FromMiddle(sample.u, hero.width) && p.ly == FromMiddle(sample.v, hero.height)
    ensures PlacedAt(p, SceneOf(hero, slot), maths, 0.0) == PixelOf(hero, sample)
  {
    hide PlacedAt;
    hide At;
    hide PixelOf;
    hide Centre;
    hide Scale;
    var scene := SceneOf(hero, slot);
    PlacedAtAnEnd(p, scene, maths, 0.0);
    PathEnds(scene.path);
    ScaleEnds(scene.endScale);
    PixelFromTheCentre(hero, sample);
    assert scene.path.start == Centre(hero);
    hide CreateTrailPath;
    hide SceneOf;
  }

  lemma PlacedParticle(samples: seq<Sample>, i: nat, hero: Box, maths: Maths, draws: nat -> real, calls: nat)
    requires i < |samples|
    ensures ParticleAt(samples, i, hero, maths, draws, calls).lx == FromMiddle(samples[i].u, hero.width)
    ensures ParticleAt(samples, i, hero, maths, draws, calls).ly == FromMiddle(samples[i].v, hero.height)
  {
  }

  lemma PixelFromTheCentre(hero: Box, sample: Sample)
    ensures PixelOf(hero, sample) == Point(Centre(hero).x + FromMiddle(sample.u, hero.width), Centre(hero).y + FromMiddle(sample.v, hero.height))
  {
    hide FromMiddle;
    FromEdge(sample.u, hero.width, sample.u * hero.width);
    FromEdge(sample.v, hero.height, sample.v * hero.height);
  }

  lemma FromEdge(fraction: real, length: real, product: real)
    requires product == fraction * length
    ensures length / 2.0 + FromMiddle(fraction, length) == product
  {
  }

  /** The width that keeps the hero logo's proportions at the slot's height. */
  function LandedWidth(hero: Box, slot: Box): real
    requires hero.height != 0.0
  {
    hero.width * slot.height / hero.height
  }

  /** The middle of the slot, and around it the logo drawn with the slot's height. */
  function LandedPixel(hero: Box, slot: Box, sample: Sample): Point
    requires hero.height != 0.0
  {
    Point(Centre(slot).x + FromMiddle(sample.u, LandedWidth(hero, slot)),
          Centre(slot).y + FromMiddle(sample.v, slot.height))
  }

  /** For any samples and any stream of numbers: from 0.912 on a particle is and stays exactly at its pixel of the
      landed logo. */
  lemma FlightsLandInTheSlot(samples: seq<Sample>, i: nat, hero: Box, slot: Box, maths: Maths, draws: nat -> real, calls: nat, p: Particle, t: real)
    requires i < |samples| && UnitStream(draws) && PowersOk(maths) && hero.height > 0.0 && slot.height > 0.0
    requires p == ParticleAt(samples, i, hero, maths, draws, calls)
    requires t >= 0.912
    ensures Timed(p) && PlacedAt(p, SceneOf(hero, slot), maths, Progress(p, t)) == LandedPixel(hero, slot, samples[i])
  {
    hide ParticleAt;
    hide Progress;
    hide PlacedAt;
    hide LandedPixel;
    hide SceneOf;
    hide Around;
    hide FromMiddle;
    hide Centre;
    ParticlesAreTimed(samples, i, hero, maths, draws, calls);
    PlacedParticle(samples, i, hero, maths, draws, calls);
    ProgressGrows(p, t, t);
    assert Progress(p, t) == 1.0;
    LandsScaled(p, SceneOf(hero, slot), maths);
    EndOfTheScene(hero, slot);
    LandedIsScaled(hero, slot, samples[i], SceneOf(hero, slot).endScale);
  }

  /** The landed logo keeps within the height of the slot. */
  lemma LandedLogoFitsTheSlot(hero: Box, slot: Box, sample: Sample)
    requires hero.height != 0.0 && slot.height > 0.0
    ensures InImage(sample) ==> slot.y <= LandedPixel(hero, slot, sample).y < slot.y + slot.height
  {
    if InImage(sample) {
      WithinHalf(sample.v, slot.height);
      hide FromMiddle;
    }
  }

  lemma LandsScaled(p: Particle, scene: Scene, maths: Maths)
    ensures PlacedAt(p, scene, maths, 1.0) == Around(scene.path.end, p.lx, p.ly, scene.endScale)
  {
    hide PlacedAt;
    hide At;
    hide Scale;
    hide Around;
    PlacedAtAnEnd(p, scene, maths, 1.0);
    PathEnds(scene.path);
    ScaleEnds(scene.endScale);
  }

  lemma EndOfTheScene(hero: Box, slot: Box)
    requires hero.height != 0.0
    ensures SceneOf(hero, slot).path.end == Centre(slot) && SceneOf(hero, slot).endScale == slot.height / hero.height
  {
    hide Centre;
  }

  lemma LandedIsScaled(hero: Box, slot: Box, sample: Sample, scale: real)
    requires hero.height > 0.0 && scale == slot.height / hero.height
    ensures LandedPixel(hero, slot, sample) == Around(Centre(slot), FromMiddle(sample.u, hero.width), FromMiddle(sample.v, hero.height), scale)
  {
    hide Centre;
    hide FromMiddle;
    hide Scaled;
    hide LandedWidth;
    ScaledToTheSlot(sample.u, hero, slot, scale);
    ScaledToItsHeight(sample.v, hero.height, slot.height, scale);
  }

  lemma ScaledToTheSlot(v: real, hero: Box, slot: Box, scale: real)
    requires hero.height > 0.0 && scale == slot.height / hero.height
    ensures Scaled(FromMiddle(v, hero.width), scale) == FromMiddle(v, LandedWidth(hero, slot))
  {
    assert LandedWidth(hero, slot) == hero.width * scale;
    assert ((v - 0.5) * hero.width) * scale == (v - 0.5) * (hero.width * scale);
  }

  lemma ScaledToItsHeight(v: real, heroHeight: real, slotHeight: real, scale: real)
    requires heroHeight > 0.0 && scale == slotHeight / heroHeight
    ensures Scaled(FromMiddle(v, heroHeight), scale) == FromMiddle(v, slotHeight)
  {
    assert heroHeight * scale == slotHeight;
    assert ((v - 0.5) * heroHeight) * scale == (v - 0.5) * (heroHeight * scale);
  }

  lemma WithinHalf(v: real, height: real)
    requires 0.0 <= v < 1.0 && height > 0.0
    ensures -(height / 2.0) <= FromMiddle(v, height) < height / 2.0
  {
    Product(v, height);
    assert v * height == FromMiddle(v, height) + height / 2.0;
    assert (1.0 - v) * height > 0.0;
    assert (1.0 - v) * height == height / 2.0 - FromMiddle(v, height);
  }
}
