/** The flight of the logo's particles from the hero to its slot (apps/web/lib/motion/logo-trail.ts), over the reals.
    `sin` and `hypot` are any functions; of `x ** 1.5` only its square is used. */
module LogoTrail {

  import opened Basics
  import opened SeededRandom

  datatype Point = Point(x: real, y: real)
  datatype Box = Box(x: real, y: real, width: real, height: real)

  // ---------------------------------------------------------------------------------------------
  // Easing
  // ---------------------------------------------------------------------------------------------

  function Min(a: real, b: real): real {
    if a < b then a else b
  }

  function Max(a: real, b: real): real {
    if a < b then b else a
  }

  function Clamp01(x: real): (r: real)
    ensures 0.0 <= r <= 1.0
  {
    Min(1.0, Max(0.0, x))
  }

  /** `smooth` on its clamped argument. */
  function Smoothed(k: real): real {
    k * k * (3.0 - 2.0 * k)
  }

  function Smooth(a: real, b: real, x: real): real
    requires a < b
  {
    Smoothed(Clamp01((x - a) / (b - a)))
  }

  function Cube(x: real): real {
    x * x * x
  }

  function EaseInOut(x: real): real {
    if x < 0.5 then 4.0 * Cube(x) else 1.0 - Cube(-2.0 * x + 2.0) / 2.0
  }

  lemma CubesGrow(a: real, b: real)
    requires 0.0 <= a <= b
    ensures 0.0 <= Cube(a) <= Cube(b)
  {
    assert a * a <= b * b;
    assert Cube(a) == (a * a) * a && Cube(b) == (b * b) * b;
    assert (a * a) * a <= (b * b) * a <= (b * b) * b;
  }

  lemma EaseInOutGrows(a: real, b: real)
    requires 0.0 <= a <= b <= 1.0
    ensures 0.0 <= EaseInOut(a) <= EaseInOut(b) <= 1.0
  {
    assert Cube(0.5) == 0.125 && Cube(1.0) == 1.0;
    if b < 0.5 {
      CubesGrow(a, b);
      CubesGrow(b, 0.5);
    } else if a < 0.5 {
      CubesGrow(a, 0.5);
      CubesGrow(-2.0 * b + 2.0, 1.0);
    } else {
      CubesGrow(-2.0 * b + 2.0, -2.0 * a + 2.0);
      CubesGrow(-2.0 * a + 2.0, 1.0);
    }
  }

  lemma Product(x: real, y: real)
    requires x >= 0.0 && y >= 0.0
    ensures x * y >= 0.0
  {
  }

  lemma SmoothedGrows(a: real, b: real)
    requires 0.0 <= a <= b <= 1.0
    ensures 0.0 <= Smoothed(a) <= Smoothed(b) <= 1.0
  {
    var d := b - a;
    var slope := a * (1.0 - b) + b * (1.0 - a) + 2.0 * (a * (1.0 - a)) + 2.0 * (b * (1.0 - b));
    Product(a, 1.0 - b);
    Product(b, 1.0 - a);
    Product(a, 1.0 - a);
    Product(b, 1.0 - b);
    Product(d, slope);
    assert Smoothed(b) - Smoothed(a) == d * slope;
    Product(a * a, 3.0 - 2.0 * a);
    Product((1.0 - b) * (1.0 - b), 1.0 + 2.0 * b);
    assert 1.0 - Smoothed(b) == (1.0 - b) * (1.0 - b) * (1.0 + 2.0 * b);
  }

  lemma QuotientsGrow(x: real, y: real, d: real)
    requires x <= y && d > 0.0
    ensures x / d <= y / d
    ensures y <= 0.0 ==> y / d <= 0.0
    ensures x >= d ==> x / d >= 1.0
  {
    assert y / d - x / d == (y - x) / d;
  }

  lemma ClampGrows(x: real, y: real)
    requires x <= y
    ensures Clamp01(x) <= Clamp01(y)
    ensures x <= 0.0 ==> Clamp01(x) == 0.0
    ensures x >= 1.0 ==> Clamp01(x) == 1.0
  {
  }

  lemma SmoothGrows(a: real, b: real, x: real, y: real)
    requires a < b && x <= y
    ensures 0.0 <= Smooth(a, b, x) <= Smooth(a, b, y) <= 1.0
    ensures x <= a ==> Smooth(a, b, x) == 0.0
    ensures x >= b ==> Smooth(a, b, x) == 1.0
  {
    QuotientsGrow(x - a, y - a, b - a);
    QuotientsGrow(x - a, x - a, b - a);
    ClampGrows((x - a) / (b - a), (y - a) / (b - a));
    SmoothedGrows(Clamp01((x - a) / (b - a)), Clamp01((y - a) / (b - a)));
    assert Smoothed(0.0) == 0.0 && Smoothed(1.0) == 1.0;
    hide Smoothed;
    hide Clamp01;
  }

  /** How much of the hero logo is seen at progress `t`. */
  function HeroOpacityAt(t: real): real {
    1.0 - Smooth(0.08, 0.26, t)
  }

  /** The hero logo only ever fades, wholly there until 0.08 and gone from 0.26 on, long before a particle lands. */
  lemma HeroLogoFades(t: real, later: real)
    requires t <= later
    ensures 1.0 >= HeroOpacityAt(t) >= HeroOpacityAt(later) >= 0.0
    ensures t <= 0.08 ==> HeroOpacityAt(t) == 1.0
    ensures t >= 0.26 ==> HeroOpacityAt(t) == 0.0
  {
    SmoothGrows(0.08, 0.26, t, later);
  }

  // ---------------------------------------------------------------------------------------------
  // Sampling the logo
  // ---------------------------------------------------------------------------------------------

  datatype Colour = Rgb(red: int, green: int, blue: int)
  datatype Pixel = Pixel(colour: Colour, alpha: int)

  /** A point of the logo image, both coordinates from 0 to 1. */
  datatype Sample = Sample(u: real, v: real, colour: Colour)

  const COLUMNS := 96

  /** `Math.max(1, Math.round((columns * height) / width))`. */
  function RowsFor(width: nat, height: nat): (rows: nat)
    requires width > 0
    ensures rows >= 1
  {
    var rounded := (2 * COLUMNS * height + width) / (2 * width);
    if rounded < 1 then 1 else rounded
  }

  /** The cells of the picture that are opaque enough, in order. */
  function OpaqueCells(data: seq<Pixel>): (cells: seq<nat>)
    ensures forall k :: 0 <= k < |cells| ==> cells[k] < |data| && data[cells[k]].alpha > 140
  {
    if data == [] then []
    else
      var i := |data| - 1;
      OpaqueCells(data[..i]) + if data[i].alpha > 140 then [i] else []
  }

  /** Every cell that is opaque enough is there, once, in the order of the picture. */
  lemma {:induction false} OpaqueCellsAreAll(data: seq<Pixel>)
    ensures forall i :: i in OpaqueCells(data) <==> 0 <= i < |data| && data[i].alpha > 140
    ensures forall a, b :: 0 <= a < b < |OpaqueCells(data)| ==> OpaqueCells(data)[a] < OpaqueCells(data)[b]
    decreases |data|
  {
    if data != [] {
      OpaqueCellsAreAll(data[..|data| - 1]);
    }
  }

  /** The rows are those that keep the picture's proportions best; a picture has at least one. */
  lemma RowsKeepTheProportions(width: nat, height: nat)
    requires width > 0
    ensures var rows := RowsFor(width, height);
            || (192 * height <= 2 * rows * width + width && 2 * rows * width <= 192 * height + width)
            || (rows == 1 && 192 * height < width)
  {
    var n := 192 * height + width;
    var rounded := n / (2 * width);
    assert n == rounded * (2 * width) + n % (2 * width);
    assert rounded * (2 * width) == 2 * rounded * width;
  }

  /** Every number a generator gives is at least 0 and less than 1. */
  ghost predicate UnitStream(draws: nat -> real) {
    forall n :: 0.0 <= draws(n) < 1.0
  }

  /** `Math.floor(x * n)`: the index a draw selects. */
  function Selected(x: real, n: nat): (i: nat)
    requires 0.0 <= x < 1.0 && n > 0
    ensures i < n && i as real <= x * n as real < i as real + 1.0
  {
    Share(x, n as real, x * n as real);
    (x * n as real).Floor
  }

  lemma Share(x: real, whole: real, share: real)
    requires 0.0 <= x < 1.0 && whole > 0.0 && share == x * whole
    ensures 0.0 <= share < whole
  {
    assert whole - share == (1.0 - x) * whole;
  }

  /** Sample number `k`; each takes three draws. */
  function SampleOf(data: seq<Pixel>, rows: nat, cells: seq<nat>, draws: nat -> real, first: nat): Sample
    requires rows > 0 && cells != [] && cells == OpaqueCells(data) && 0.0 <= draws(first) < 1.0
  {
    var cell := cells[Selected(draws(first), |cells|)];
    Sample(((cell % COLUMNS) as real + draws(first + 1)) / 96.0,
           ((cell / COLUMNS) as real + draws(first + 2)) / rows as real,
           data[cell].colour)
  }

  /** The samples drawn one after the other, from call number `calls + 1` on. */
  ghost predicate Sampled(samples: seq<Sample>, data: seq<Pixel>, rows: nat, draws: nat -> real, calls: nat)
    requires rows > 0 && OpaqueCells(data) != [] && UnitStream(draws)
  {
    forall k :: 0 <= k < |samples| ==> samples[k] == SampleOf(data, rows, OpaqueCells(data), draws, calls + 3 * k + 1)
  }

  method TakeSample(data: seq<Pixel>, rows: nat, cells: seq<nat>, random: Generator) returns (sample: Sample)
    requires random.Valid() && rows > 0 && cells != [] && cells == OpaqueCells(data)
    modifies random
    ensures random.Valid() && random.calls == old(random.calls) + 3
    ensures sample == SampleOf(data, rows, cells, Stream(random.seed), old(random.calls) + 1)
  {
    hide OpaqueCells;
    hide Draw;
    hide StateAfter;
    var x := random.Next();
    var cell := cells[Selected(x, |cells|)];
    var across := random.Next();
    var down := random.Next();
    sample := Sample(((cell % COLUMNS) as real + across) / 96.0, ((cell / COLUMNS) as real + down) / rows as real, data[cell].colour);
  }

  method TakeSamples(data: seq<Pixel>, rows: nat, cells: seq<nat>, count: nat, random: Generator) returns (samples: seq<Sample>)
    requires random.Valid() && rows > 0 && cells != [] && cells == OpaqueCells(data)
    modifies random
    ensures random.Valid() && random.calls == old(random.calls) + 3 * count && |samples| == count
    ensures UnitStream(Stream(random.seed)) && Sampled(samples, data, rows, Stream(random.seed), old(random.calls))
  {
    hide OpaqueCells;
    hide SampleOf;
    hide Draw;
    hide StateAfter;
    samples := [];
    for n := 0 to count
      invariant random.Valid() && random.calls == old(random.calls) + 3 * n && |samples| == n
      invariant Sampled(samples, data, rows, Stream(random.seed), old(random.calls))
    {
      var sample := TakeSample(data, rows, cells, random);
      samples := samples + [sample];
    }
  }

  /** `data` is what reading the picture back gives: None when that is refused. */
  method SampleLogoPixels(complete: bool, width: nat, height: nat, data: Option<seq<Pixel>>, count: nat, random: Generator)
    returns (samples: Option<seq<Sample>>)
    requires random.Valid()
    requires width != 0 && data.Some? ==> |data.value| == COLUMNS * RowsFor(width, height)
    modifies random
    ensures random.Valid()
    ensures samples.Some? <==>
              && complete && width != 0 && height != 0 && data.Some?
              && |OpaqueCells(data.value)| >= 20 && 8 * |OpaqueCells(data.value)| >= count
    ensures samples.None? ==> random.calls == old(random.calls)
    ensures samples.Some? ==> |samples.value| == count && random.calls == old(random.calls) + 3 * count
    ensures samples.Some? ==> UnitStream(Stream(random.seed)) && Sampled(samples.value, data.value, RowsFor(width, height), Stream(random.seed), old(random.calls))
  {
    if !complete || width == 0 || height == 0 || data.None? { return None; }
    hide OpaqueCells;
    hide RowsFor;
    var rows := RowsFor(width, height);
    var cells := ReadOpaque(data.value);
    if |cells| < 20 || 8 * |cells| < count { return None; }
    var taken := TakeSamples(data.value, rows, cells, count, random);
    samples := Some(taken);
  }

  lemma OneMoreCell(data: seq<Pixel>, i: nat)
    requires i < |data|
    ensures OpaqueCells(data[..i + 1]) == OpaqueCells(data[..i]) + if data[i].alpha > 140 then [i] else []
  {
    assert data[..i + 1][..i] == data[..i];
  }

  method ReadOpaque(data: seq<Pixel>) returns (cells: seq<nat>)
    ensures cells == OpaqueCells(data)
  {
    assert OpaqueCells(data[..0]) == [];
    hide OpaqueCells;
    cells := [];
    for i := 0 to |data|
      invariant cells == OpaqueCells(data[..i])
    {
      OneMoreCell(data, i);
      if data[i].alpha > 140 {
        cells := cells + [i];
      }
    }
    assert data[..|data|] == data;
  }

  /** The sample lies within the square of an opaque cell and has its colour. */
  ghost predicate OnTheLogo(sample: Sample, data: seq<Pixel>, rows: nat) {
    exists cell :: 0 <= cell < |data| && data[cell].alpha > 140 && sample.colour == data[cell].colour
      && InItsSquare(sample, cell % COLUMNS, cell / COLUMNS, rows)
  }

  /** In the square of the cell in column `x` of row `y`. */
  predicate InItsSquare(sample: Sample, x: int, y: int, rows: nat) {
    x as real <= sample.u * 96.0 < x as real + 1.0 && y as real <= sample.v * rows as real < y as real + 1.0
  }

  /** A point of the image. */
  predicate InImage(sample: Sample) {
    0.0 <= sample.u < 1.0 && 0.0 <= sample.v < 1.0
  }

  lemma CellIsInside(cell: nat, rows: nat)
    requires cell < COLUMNS * rows
    ensures cell % COLUMNS <= 95 && cell / COLUMNS <= rows - 1
  {
  }

  lemma Fraction(top: real, bottom: real)
    requires 0.0 <= top < bottom
    ensures 0.0 <= top / bottom < 1.0 && top / bottom * bottom == top
  {
    var x := top / bottom;
    assert x * bottom == top;
    if x >= 1.0 {
      Product(x - 1.0, bottom);
    }
    if x < 0.0 {
      Product(-x, bottom);
    }
  }

  lemma WithinOne(whole: nat, part: real, n: nat)
    requires whole < n && 0.0 <= part < 1.0
    ensures var x := (whole as real + part) / n as real; 0.0 <= x < 1.0 && x * n as real == whole as real + part
  {
    assert whole + 1 <= n;
    Fraction(whole as real + part, n as real);
  }

  /** Whatever numbers the stream gives, every sample is a point of an opaque cell of the image. */
  lemma SamplesAreOnTheLogo(data: seq<Pixel>, rows: nat, draws: nat -> real, first: nat)
    requires rows > 0 && |data| == COLUMNS * rows && OpaqueCells(data) != [] && UnitStream(draws)
    ensures var sample := SampleOf(data, rows, OpaqueCells(data), draws, first);
            InImage(sample) && OnTheLogo(sample, data, rows)
  {
    var cells := OpaqueCells(data);
    hide OpaqueCells;
    var cell := cells[Selected(draws(first), |cells|)];
    SampleIsInItsCell(data, rows, cell, draws(first + 1), draws(first + 2));
  }

  /** The sample is the one that its three numbers choose: the first which opaque cell, the others where in its square. */
  lemma SampleIsOfTheCellDrawn(data: seq<Pixel>, rows: nat, draws: nat -> real, first: nat)
    requires rows > 0 && |data| == COLUMNS * rows && OpaqueCells(data) != [] && UnitStream(draws)
    ensures exists k: nat ::
              && k < |OpaqueCells(data)| && k as real <= draws(first) * |OpaqueCells(data)| as real < k as real + 1.0
              && IsIn(SampleOf(data, rows, OpaqueCells(data), draws, first), data, OpaqueCells(data)[k], rows, draws(first + 1), draws(first + 2))
  {
    var cells := OpaqueCells(data);
    hide OpaqueCells;
    var k := Selected(draws(first), |cells|);
    var cell := cells[k];
    CellIsInside(cell, rows);
    WithinOne(cell % COLUMNS, draws(first + 1), 96);
    WithinOne(cell / COLUMNS, draws(first + 2), rows);
    assert IsIn(SampleOf(data, rows, cells, draws, first), data, cell, rows, draws(first + 1), draws(first + 2));
  }

  /** In the square of the cell, so far across and so far down, with its colour. */
  predicate IsIn(sample: Sample, data: seq<Pixel>, cell: nat, rows: nat, across: real, down: real)
    requires cell < |data|
  {
    && sample.colour == data[cell].colour
    && sample.u * 96.0 == (cell % 96) as real + across && sample.v * rows as real == (cell / 96) as real + down
  }

  lemma SampleIsInItsCell(data: seq<Pixel>, rows: nat, cell: nat, across: real, down: real)
    requires rows > 0 && |data| == COLUMNS * rows && cell < |data| && data[cell].alpha > 140
    requires 0.0 <= across < 1.0 && 0.0 <= down < 1.0
    ensures var sample := Sample(((cell % COLUMNS) as real + across) / 96.0, ((cell / COLUMNS) as real + down) / rows as real, data[cell].colour);
            InImage(sample) && OnTheLogo(sample, data, rows)
  {
    var x, y := cell % COLUMNS, cell / COLUMNS;
    CellIsInside(cell, rows);
    WithinOne(x, across, 96);
    WithinOne(y, down, rows);
    var sample := Sample((x as real + across) / 96.0, (y as real + down) / rows as real, data[cell].colour);
    assert InItsSquare(sample, x, y, rows);
  }
}
