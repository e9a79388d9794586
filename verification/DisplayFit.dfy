/** Where a picture goes in the window and how the larger scene is filtered down to it. */
module DisplayFit {
  import opened WholeNumbers

  const WORD: int := 0x1_0000_0000
  const MAX_TAPS: int := 8

  predicate IsWord(n: int) {
    0 <= n < WORD
  }

  datatype Rectangle = Rectangle(x: int, y: int, w: int, h: int)

  function AtLeastOne(n: int): int {
    if n < 1 then 1 else n
  }

  // ---- The rectangle ----

  /** The picture of that shape in a back buffer of that size. */
  function Fit(shapeW: int, shapeH: int, bbW: int, bbH: int): Rectangle
    requires 0 <= shapeW && 0 <= shapeH && 0 <= bbW && 0 <= bbH
  {
    if shapeW == 0 || shapeH == 0 || bbW == 0 || bbH == 0 then Rectangle(0, 0, bbW, bbH)
    else if shapeW * bbH > bbW * shapeH then
      var h := AtLeastOne(bbW * shapeH / shapeW);
      Rectangle(0, (bbH - h) / 2, bbW, h)
    else if shapeW * bbH < bbW * shapeH then
      var w := AtLeastOne(bbH * shapeW / shapeH);
      Rectangle((bbW - w) / 2, 0, w, bbH)
    else Rectangle(0, 0, bbW, bbH)
  }

  /** Inside the back buffer, filling one axis, and centred within a pixel on the other. */
  predicate Placed(f: Rectangle, bbW: int, bbH: int) {
    0 <= f.x && 0 <= f.y && f.w > 0 && f.h > 0 && f.x + f.w <= bbW && f.y + f.h <= bbH
    && (f.w == bbW || f.h == bbH)
    && 0 <= bbW - f.w - 2 * f.x <= 1 && 0 <= bbH - f.h - 2 * f.y <= 1
  }

  lemma {:induction false} Narrowed(a: int, b: int, c: int, d: int)
    requires 0 < a && 0 < b && 0 < c && a * d > b * c
    ensures 0 <= b * c / a < d
    ensures b * c / a * a <= b * c < (b * c / a + 1) * a
  {
    MulMonotone(0, b, c);
    DivNonNegative(b * c, a);
    assert a * d == d * a;
    DivBelow(b * c, d, a);
    var q, r := b * c / a, b * c % a;
    assert b * c == q * a + r;
    assert (q + 1) * a == q * a + a;
  }

  /** For all positive sizes the picture is placed; without a shape or a window it is the whole
      back buffer. */
  lemma {:induction false} FitIsPlaced(shapeW: int, shapeH: int, bbW: int, bbH: int)
    requires 0 <= shapeW && 0 <= shapeH && 0 <= bbW && 0 <= bbH
    ensures var f := Fit(shapeW, shapeH, bbW, bbH);
      if 0 < shapeW && 0 < shapeH && 0 < bbW && 0 < bbH then Placed(f, bbW, bbH) else f == Rectangle(0, 0, bbW, bbH)
  {
    if shapeW == 0 || shapeH == 0 || bbW == 0 || bbH == 0 {
    } else if shapeW * bbH > bbW * shapeH {
      Narrowed(shapeW, bbW, shapeH, bbH);
    } else if shapeW * bbH < bbW * shapeH {
      assert shapeH * bbW == bbW * shapeH && bbH * shapeW == shapeW * bbH;
      Narrowed(shapeH, bbH, shapeW, bbW);
    }
  }

  /** No rectangle of exactly the shape that fits the back buffer is larger. */
  lemma {:induction false} FitIsLargest(shapeW: int, shapeH: int, bbW: int, bbH: int, w: int, h: int)
    requires 0 < shapeW && 0 < shapeH && 0 < bbW && 0 < bbH
    requires 0 <= w <= bbW && 0 <= h <= bbH && w * shapeH == h * shapeW
    ensures w <= Fit(shapeW, shapeH, bbW, bbH).w && h <= Fit(shapeW, shapeH, bbW, bbH).h
  {
    if shapeW * bbH > bbW * shapeH {
      MulMonotone(w, bbW, shapeH);
      DivExact(h, shapeW);
      DivMonotone(h * shapeW, bbW * shapeH, shapeW);
    } else if shapeW * bbH < bbW * shapeH {
      MulMonotone(h, bbH, shapeW);
      DivExact(w, shapeH);
      DivMonotone(w * shapeH, bbH * shapeW, shapeH);
    }
  }

  /** The shape is right to less than a pixel on the axis that is cut down, unless that axis
      would vanish: one pixel more would be too much for the shape. */
  lemma {:induction false} FitKeepsShape(shapeW: int, shapeH: int, bbW: int, bbH: int)
    requires 0 < shapeW && 0 < shapeH && 0 < bbW && 0 < bbH
    ensures var f := Fit(shapeW, shapeH, bbW, bbH);
            (f.w == bbW && bbW * shapeH < (f.h + 1) * shapeW && (f.h * shapeW <= bbW * shapeH || f.h == 1))
            || (f.h == bbH && bbH * shapeW < (f.w + 1) * shapeH && (f.w * shapeH <= bbH * shapeW || f.w == 1))
  {
    if shapeW * bbH > bbW * shapeH {
      Narrowed(shapeW, bbW, shapeH, bbH);
      MulMonotone(bbW * shapeH / shapeW + 1, Fit(shapeW, shapeH, bbW, bbH).h + 1, shapeW);
    } else if shapeW * bbH < bbW * shapeH {
      assert shapeH * bbW == bbW * shapeH && bbH * shapeW == shapeW * bbH;
      Narrowed(shapeH, bbH, shapeW, bbW);
      MulMonotone(bbH * shapeW / shapeH + 1, Fit(shapeW, shapeH, bbW, bbH).w + 1, shapeH);
    } else {
      assert (bbH + 1) * shapeW == shapeW * bbH + shapeW;
      assert bbH * shapeW == shapeW * bbH;
    }
  }

  // ---- How many taps ----

  function ClampTaps(n: int): int {
    if n < 1 then 1 else if n > MAX_TAPS then MAX_TAPS else n
  }

  /** Taps along an axis of an output pixel, in machine words. */
  function Taps(sceneH: int, fitH: int): int
    requires IsWord(sceneH) && 0 < fitH < WORD
  {
    ClampTaps((sceneH + fitH / 2) % WORD / fitH)
  }

  /** Within its bounds the number of taps is the whole number nearest the ratio. */
  lemma {:induction false} TapsAreNearest(sceneH: int, fitH: int)
    requires IsWord(sceneH) && 0 < fitH < WORD && sceneH + fitH / 2 < WORD
    ensures 1 <= Taps(sceneH, fitH) <= MAX_TAPS
    ensures 1 < Taps(sceneH, fitH) < MAX_TAPS ==>
              -fitH <= 2 * (sceneH - Taps(sceneH, fitH) * fitH) <= fitH
  {
    var n := sceneH + fitH / 2;
    var q, r := n / fitH, n % fitH;
    assert n == q * fitH + r;
    assert n % WORD == n;
  }

  /** Where the ratio is beyond them it is the nearer bound. */
  lemma {:induction false} TapsAtBounds(sceneH: int, fitH: int)
    requires IsWord(sceneH) && 0 < fitH < WORD && sceneH + fitH / 2 < WORD
    ensures sceneH <= fitH ==> Taps(sceneH, fitH) == 1
    ensures sceneH >= MAX_TAPS * fitH ==> Taps(sceneH, fitH) == MAX_TAPS
  {
    var n := sceneH + fitH / 2;
    assert n % WORD == n;
    if sceneH <= fitH {
      DivBelow(n, 2, fitH);
    }
    if sceneH >= MAX_TAPS * fitH {
      DivExact(MAX_TAPS, fitH);
      DivMonotone(MAX_TAPS * fitH, n, fitH);
    }
  }

  /** At a whole-number ratio it is the ratio. */
  lemma {:induction false} TapsOfWhole(scale: int, fitH: int)
    requires 1 <= scale <= MAX_TAPS && 0 < fitH
    requires scale * fitH + fitH / 2 < WORD
    ensures IsWord(scale * fitH) && fitH < WORD && Taps(scale * fitH, fitH) == scale
  {
    MulMonotone(1, scale, fitH);
    DivUnique(scale * fitH + fitH / 2, fitH, scale, fitH / 2);
  }

  // ---- The samples of an output pixel ----

  /** A texel by its place, or a sampled value by the tap. */
  type Image = (int, int) -> real

  /** Where a tap of an output pixel samples the scene along one axis, in texels. The pixel's
      position counts from the back buffer's corner and is at its centre. */
  function SamplePoint(pixel: int, origin: int, tap: int, sceneSize: int, fitSize: int, taps: int): real
    requires 0 < fitSize && 0 < taps
  {
    var ratio := sceneSize as real / fitSize as real;
    ((pixel as real + 0.5) - 0.5 - origin as real) * ratio + (tap as real + 0.5) * (ratio / taps as real)
  }

  function ClampTo(n: int, size: int): int {
    if n < 0 then 0 else if n >= size then size - 1 else n
  }

  /** The bilinear sampler, clamped at the edges. */
  function Bilinear(scene: Image, w: int, h: int, u: real, v: real): real {
    var x, y := (u - 0.5).Floor, (v - 0.5).Floor;
    var fx, fy := u - 0.5 - x as real, v - 0.5 - y as real;
    var top := (1.0 - fx) * scene(ClampTo(x, w), ClampTo(y, h)) + fx * scene(ClampTo(x + 1, w), ClampTo(y, h));
    var bottom := (1.0 - fx) * scene(ClampTo(x, w), ClampTo(y + 1, h)) + fx * scene(ClampTo(x + 1, w), ClampTo(y + 1, h));
    (1.0 - fy) * top + fy * bottom
  }

  /** The sum over a row, and over a rectangle row by row. */
  function RowSum(f: Image, x: int, y: int, n: nat): real {
    if n == 0 then 0.0 else RowSum(f, x, y, n - 1) + f(x + n - 1, y)
  }

  function RectangleSum(f: Image, x: int, y: int, w: nat, h: nat): real
    decreases h
  {
    if h == 0 then 0.0 else RectangleSum(f, x, y, w, h - 1) + RowSum(f, x, y + h - 1, w)
  }

  /** What each tap of a pixel samples. */
  function TapSample(scene: Image, w: int, h: int, fit: Rectangle, px: int, py: int, taps: int): Image
    requires 0 < fit.w && 0 < fit.h && 0 < taps
  {
    (tx: int, ty: int) =>
      Bilinear(scene, w, h, SamplePoint(px, fit.x, tx, w, fit.w, taps), SamplePoint(py, fit.y, ty, h, fit.h, taps))
  }

  /** What the sum of taps by taps samples averages to. */
  function Averaged(sum: real, taps: int): real
    requires 0 < taps
  {
    MulMonotone(1, taps, taps);
    sum * (1.0 / (taps * taps) as real)
  }

  /** An output pixel: the samples averaged. */
  function Resolved(scene: Image, w: int, h: int, fit: Rectangle, px: int, py: int): real
    requires IsWord(h) && 0 < fit.w && 0 < fit.h < WORD
  {
    var taps := Taps(h, fit.h);
    Averaged(RectangleSum(TapSample(scene, w, h, fit, px, py, taps), 0, 0, taps, taps), taps)
  }

  // ---- At any ratio ----

  /** A pixel's taps divide its share of the scene evenly: cutting the scene into as many parts as
      all pixels have taps, each tap is at the middle of its part. */
  lemma {:induction false} SamplesDivideEvenly(pixel: int, origin: int, tap: int, sceneSize: int, fitSize: int, taps: int)
    requires 0 < fitSize && 0 < taps
    ensures SamplePoint(pixel, origin, tap, sceneSize, fitSize, taps) * (fitSize * taps) as real
         == sceneSize as real * (((pixel - origin) * taps + tap) as real + 0.5)
  {
    var ratio, n := sceneSize as real / fitSize as real, taps as real;
    var p, t := (pixel - origin) as real, tap as real + 0.5;
    assert SamplePoint(pixel, origin, tap, sceneSize, fitSize, taps) == p * ratio + t * (ratio / n);
    assert (fitSize * taps) as real == fitSize as real * n && ((pixel - origin) * taps) as real == p * n;
    Multiplied(p, t, ratio, n, fitSize as real, sceneSize as real);
  }

  lemma {:induction false} Multiplied(p: real, t: real, ratio: real, n: real, fit: real, scene: real)
    requires n > 0.0 && ratio * fit == scene
    ensures (p * ratio + t * (ratio / n)) * (fit * n) == scene * (p * n + t)
  {
    var part := ratio / n;
    assert part * n == ratio;
    assert p * ratio * (fit * n) == p * n * (ratio * fit);
    assert t * part * (fit * n) == t * (part * n * fit);
  }

  function Lerp(t: real, a: real, b: real): real {
    (1.0 - t) * a + t * b
  }

  lemma {:induction false} NotNegative(x: real, y: real)
    requires x >= 0.0 && y >= 0.0
    ensures x * y >= 0.0
  {
  }

  lemma {:induction false} LerpBetween(t: real, a: real, b: real, low: real, high: real)
    requires 0.0 <= t <= 1.0 && low <= a <= high && low <= b <= high
    ensures low <= Lerp(t, a, b) <= high
  {
    NotNegative(1.0 - t, a - low);
    NotNegative(t, b - low);
    NotNegative(1.0 - t, high - a);
    NotNegative(t, high - b);
  }

  /** Every texel is between `low` and `high`. */
  ghost predicate Between(scene: Image, w: int, h: int, low: real, high: real) {
    forall x, y {:trigger scene(x, y)} :: 0 <= x < w && 0 <= y < h ==> low <= scene(x, y) <= high
  }

  lemma {:induction false} BilinearIsLerp(scene: Image, w: int, h: int, u: real, v: real)
    ensures var x, y := (u - 0.5).Floor, (v - 0.5).Floor;
      var fx, fy := u - 0.5 - x as real, v - 0.5 - y as real;
      Bilinear(scene, w, h, u, v)
        == Lerp(fy, Lerp(fx, scene(ClampTo(x, w), ClampTo(y, h)), scene(ClampTo(x + 1, w), ClampTo(y, h))),
                    Lerp(fx, scene(ClampTo(x, w), ClampTo(y + 1, h)), scene(ClampTo(x + 1, w), ClampTo(y + 1, h))))
  {
    hide ClampTo;
  }

  lemma {:induction false} BilinearBetween(scene: Image, w: int, h: int, u: real, v: real, low: real, high: real)
    requires 0 < w && 0 < h && Between(scene, w, h, low, high)
    ensures low <= Bilinear(scene, w, h, u, v) <= high
  {
    var x, y := (u - 0.5).Floor, (v - 0.5).Floor;
    var fx, fy := u - 0.5 - x as real, v - 0.5 - y as real;
    var a, b := scene(ClampTo(x, w), ClampTo(y, h)), scene(ClampTo(x + 1, w), ClampTo(y, h));
    var c, d := scene(ClampTo(x, w), ClampTo(y + 1, h)), scene(ClampTo(x + 1, w), ClampTo(y + 1, h));
    BilinearIsLerp(scene, w, h, u, v);
    hide Bilinear, Lerp;
    LerpBetween(fx, a, b, low, high);
    LerpBetween(fx, c, d, low, high);
    LerpBetween(fy, Lerp(fx, a, b), Lerp(fx, c, d), low, high);
  }

  lemma {:induction false} RowBetween(f: Image, x: int, y: int, n: nat, low: real, high: real)
    requires forall u, v {:trigger f(u, v)} :: low <= f(u, v) <= high
    ensures n as real * low <= RowSum(f, x, y, n) <= n as real * high
  {
    if n > 0 {
      RowBetween(f, x, y, n - 1, low, high);
      assert n as real * low == (n - 1) as real * low + low && n as real * high == (n - 1) as real * high + high;
    }
  }

  lemma {:induction false} RectangleBetween(f: Image, x: int, y: int, w: nat, h: nat, low: real, high: real)
    requires forall u, v {:trigger f(u, v)} :: low <= f(u, v) <= high
    ensures h as real * (w as real * low) <= RectangleSum(f, x, y, w, h) <= h as real * (w as real * high)
    decreases h
  {
    if h > 0 {
      RectangleBetween(f, x, y, w, h - 1, low, high);
      RowBetween(f, x, y + h - 1, w, low, high);
      var l, u := w as real * low, w as real * high;
      assert h as real * l == (h - 1) as real * l + l && h as real * u == (h - 1) as real * u + u;
    }
  }

  lemma {:induction false} AveragedBetween(sum: real, n: int, low: real, high: real)
    requires 0 < n && n as real * (n as real * low) <= sum <= n as real * (n as real * high)
    ensures low <= Averaged(sum, n) <= high
  {
    var m, inverse := n as real * n as real, 1.0 / (n * n) as real;
    MulMonotone(1, n, n);
    assert (n * n) as real == m && m > 0.0 && inverse > 0.0 && m * inverse == 1.0;
    assert m * low <= sum <= m * high;
    Scaled(m * low, sum, inverse);
    Scaled(sum, m * high, inverse);
    assert m * low * inverse == low * (m * inverse) && m * high * inverse == high * (m * inverse);
  }

  lemma {:induction false} Scaled(x: real, y: real, factor: real)
    requires x <= y && factor >= 0.0
    ensures x * factor <= y * factor
  {
  }

  /** Whatever the ratio, an output pixel is never darker or brighter than all of the scene: a flat
      scene stays as it is. */
  lemma {:induction false} ResolvedBetween(scene: Image, w: int, h: int, fit: Rectangle, px: int, py: int, low: real,
        high: real)
    requires 0 < w && 0 < h && IsWord(h) && 0 < fit.w && 0 < fit.h < WORD && Between(scene, w, h, low, high)
    ensures low <= Resolved(scene, w, h, fit, px, py) <= high
  {
    var taps := Taps(h, fit.h);
    var f := TapSample(scene, w, h, fit, px, py, taps);
    hide Bilinear, SamplePoint, Between, Averaged, RectangleSum;
    forall x, y {:trigger f(x, y)} ensures low <= f(x, y) <= high {
      BilinearBetween(scene, w, h, SamplePoint(px, fit.x, x, w, fit.w, taps), SamplePoint(py, fit.y, y, h, fit.h, taps), low, high);
    }
    RectangleBetween(f, 0, 0, taps, taps, low, high);
    AveragedBetween(RectangleSum(f, 0, 0, taps, taps), taps, low, high);
  }

  function Line(a: real, b: real, x: real): real {
    a + b * x
  }

  lemma {:induction false} LerpOnLine(t: real, p: real, q: real, a: real, b: real, x: real)
    requires p == Line(a, b, x) && (t == 0.0 || q == Line(a, b, x + 1.0))
    ensures Lerp(t, p, q) == Line(a, b, x + t)
  {
  }

  lemma {:induction false} LinesCommute(a: real, b: real, x: real, c: real, y: real)
    ensures Line(Line(a, b, x), c, y) == Line(Line(a, c, y), b, x)
  {
  }

  /** Between the centres of the outer texels the sampler follows an even slope exactly. */
  lemma {:induction false} SlopeIsSampled(scene: Image, w: int, h: int, a: real, b: real, c: real, u: real, v: real)
    requires 0.5 <= u <= w as real - 0.5 && 0.5 <= v <= h as real - 0.5
    requires forall x, y {:trigger scene(x, y)} :: 0 <= x < w && 0 <= y < h ==> scene(x, y) == Line(Line(a, b, x as real), c, y as real)
    ensures Bilinear(scene, w, h, u, v) == Line(Line(a, b, u - 0.5), c, v - 0.5)
  {
    var x, y := (u - 0.5).Floor, (v - 0.5).Floor;
    var fx, fy := u - 0.5 - x as real, v - 0.5 - y as real;
    var x', y' := ClampTo(x + 1, w), ClampTo(y + 1, h);
    BilinearIsLerp(scene, w, h, u, v);
    assert ClampTo(x, w) == x && ClampTo(y, h) == y && (fx == 0.0 || x' == x + 1) && (fy == 0.0 || y' == y + 1);
    hide Bilinear, ClampTo, Line, Lerp;
    SlopeInRow(scene, w, h, a, b, c, x, x', y, fx);
    SlopeInRow(scene, w, h, a, b, c, x, x', y', fx);
    LerpOnLine(fy, Lerp(fx, scene(x, y), scene(x', y)), Lerp(fx, scene(x, y'), scene(x', y')), Line(a, b, u - 0.5), c, y as real);
  }

  lemma {:induction false} SlopeInRow(scene: Image, w: int, h: int, a: real, b: real, c: real, x: int, x': int, y: int,
        t: real)
    requires 0 <= x < w && 0 <= x' < w && 0 <= y < h && (t == 0.0 || x' == x + 1)
    requires forall x, y {:trigger scene(x, y)} :: 0 <= x < w && 0 <= y < h ==> scene(x, y) == Line(Line(a, b, x as real), c, y as real)
    ensures Lerp(t, scene(x, y), scene(x', y)) == Line(Line(a, b, x as real + t), c, y as real)
  {
    LinesCommute(a, b, x as real, c, y as real);
    LinesCommute(a, b, x' as real, c, y as real);
    LinesCommute(a, b, x as real + t, c, y as real);
    hide Line, Lerp;
    LerpOnLine(t, scene(x, y), scene(x', y), Line(a, c, y as real), b, x as real);
  }

  /** Beyond them it stays at the edge. */
  lemma {:induction false} EdgeIsHeld(scene: Image, w: int, h: int, u: real, v: real)
    requires 0 < w && 0 < h
    ensures u < 0.5 ==> Bilinear(scene, w, h, u, v) == Bilinear(scene, w, h, 0.5, v)
    ensures u > w as real - 0.5 ==> Bilinear(scene, w, h, u, v) == Bilinear(scene, w, h, w as real - 0.5, v)
    ensures v < 0.5 ==> Bilinear(scene, w, h, u, v) == Bilinear(scene, w, h, u, 0.5)
    ensures v > h as real - 0.5 ==> Bilinear(scene, w, h, u, v) == Bilinear(scene, w, h, u, h as real - 0.5)
  {
  }

  // ---- At a whole-number ratio ----

  lemma {:induction false} RatioOfWhole(scale: int, fitSize: int)
    requires 0 < fitSize
    ensures (scale * fitSize) as real / fitSize as real == scale as real
  {
    assert (scale * fitSize) as real == scale as real * fitSize as real;
  }

  /** A tap is at the centre of a texel: the pixel's own block, tap by tap. */
  lemma {:induction false} SampleAtCentre(pixel: int, origin: int, tap: int, scale: int, fitSize: int)
    requires 0 < fitSize && 0 < scale
    ensures SamplePoint(pixel, origin, tap, scale * fitSize, fitSize, scale)
            == (scale * (pixel - origin) + tap) as real + 0.5
  {
    RatioOfWhole(scale, fitSize);
    assert scale as real / scale as real == 1.0;
    assert (scale * (pixel - origin)) as real == scale as real * (pixel - origin) as real;
  }

  /** At a texel's centre the sampler gives that texel. */
  lemma {:induction false} CentreIsTexel(scene: Image, w: int, h: int, x: int, y: int)
    requires 0 <= x < w && 0 <= y < h
    ensures Bilinear(scene, w, h, x as real + 0.5, y as real + 0.5) == scene(x, y)
  {
    assert (x as real).Floor == x && (y as real).Floor == y;
  }

  lemma {:induction false} RowsAgree(f: Image, g: Image, y: int, dx: int, dy: int, n: nat)
    requires forall x {:trigger f(x, y)} :: 0 <= x < n ==> f(x, y) == g(dx + x, dy + y)
    ensures RowSum(f, 0, y, n) == RowSum(g, dx, dy + y, n)
  {
    if n > 0 {
      RowsAgree(f, g, y, dx, dy, n - 1);
      assert f(0 + n - 1, y) == g(dx + n - 1, dy + y);
    }
  }

  lemma {:induction false} RectanglesAgree(f: Image, g: Image, dx: int, dy: int, w: nat, h: nat)
    requires forall x, y {:trigger f(x, y)} :: 0 <= x < w && 0 <= y < h ==> f(x, y) == g(dx + x, dy + y)
    ensures RectangleSum(f, 0, 0, w, h) == RectangleSum(g, dx, dy, w, h)
    decreases h
  {
    if h > 0 {
      RectanglesAgree(f, g, dx, dy, w, h - 1);
      RowsAgree(f, g, h - 1, dx, dy, w);
    }
  }

  /** A pixel's place in the picture. */
  predicate InPicture(fit: Rectangle, px: int, py: int) {
    fit.x <= px < fit.x + fit.w && fit.y <= py < fit.y + fit.h
  }

  /** When the scene is a whole multiple of the picture, every output pixel is the average of its
      own block of texels. */
  lemma {:induction false} ResolvedIsBlock(scene: Image, scale: int, fit: Rectangle, px: int, py: int)
    requires 1 <= scale <= MAX_TAPS && 0 < fit.w && 0 < fit.h && scale * fit.h + fit.h / 2 < WORD
    requires InPicture(fit, px, py)
    ensures IsWord(scale * fit.h) && fit.h < WORD
    ensures Resolved(scene, scale * fit.w, scale * fit.h, fit, px, py)
            == Averaged(RectangleSum(scene, scale * (px - fit.x), scale * (py - fit.y), scale, scale), scale)
  {
    TapsOfWhole(scale, fit.h);
    var w, h := scale * fit.w, scale * fit.h;
    var taps := TapSample(scene, w, h, fit, px, py, scale);
    var x0, y0 := scale * (px - fit.x), scale * (py - fit.y);
    hide TapSample, RectangleSum, Taps, Averaged;
    forall tx, ty {:trigger taps(tx, ty)} | 0 <= tx < scale && 0 <= ty < scale
      ensures taps(tx, ty) == scene(x0 + tx, y0 + ty)
    {
      TapIsTexel(scene, scale, fit, px, py, tx, ty);
    }
    RectanglesAgree(taps, scene, x0, y0, scale, scale);
  }

  lemma {:induction false} TapIsTexel(scene: Image, scale: int, fit: Rectangle, px: int, py: int, tx: int, ty: int)
    requires 1 <= scale && 0 < fit.w && 0 < fit.h
    requires InPicture(fit, px, py) && 0 <= tx < scale && 0 <= ty < scale
    ensures TapSample(scene, scale * fit.w, scale * fit.h, fit, px, py, scale)(tx, ty)
            == scene(scale * (px - fit.x) + tx, scale * (py - fit.y) + ty)
  {
    SampleAtCentre(px, fit.x, tx, scale, fit.w);
    SampleAtCentre(py, fit.y, ty, scale, fit.h);
    BlockInScene(px - fit.x, tx, scale, fit.w);
    BlockInScene(py - fit.y, ty, scale, fit.h);
    hide SamplePoint, Bilinear;
    CentreIsTexel(scene, scale * fit.w, scale * fit.h, scale * (px - fit.x) + tx, scale * (py - fit.y) + ty);
  }

  lemma {:induction false} BlockInScene(p: int, t: int, scale: int, size: int)
    requires 0 <= p < size && 0 <= t < scale
    ensures 0 <= scale * p + t < scale * size
  {
    MulMonotone(0, p, scale);
    MulNext(p, size, scale);
  }

  /** The blocks partition the scene: every texel is the sample of exactly one tap of exactly one
      pixel. */
  lemma {:induction false} TapsPartition(scale: int, size: int, texel: int, pixel: int, tap: int)
    requires 0 < scale && 0 <= texel < scale * size && 0 <= tap < scale
    ensures 0 <= texel / scale < size && 0 <= texel % scale < scale
    ensures scale * pixel + tap == texel <==> pixel == texel / scale && tap == texel % scale
  {
    DivNonNegative(texel, scale);
    assert scale * size == size * scale;
    DivBelow(texel, size, scale);
    assert texel == texel / scale * scale + texel % scale;
    if scale * pixel + tap == texel {
      assert scale * pixel == pixel * scale;
      DivUnique(texel, scale, pixel, tap);
    }
  }

  // ---- Nothing of the scene is lost ----

  lemma {:induction false} RowSplits(f: Image, x: int, y: int, a: nat, b: nat)
    ensures RowSum(f, x, y, a + b) == RowSum(f, x, y, a) + RowSum(f, x + a, y, b)
  {
    if b > 0 {
      RowSplits(f, x, y, a, b - 1);
      assert x + (a + b) - 1 == x + a + b - 1;
    }
  }

  lemma {:induction false} RectangleSplitsRows(f: Image, x: int, y: int, w: nat, a: nat, b: nat)
    ensures RectangleSum(f, x, y, w, a + b) == RectangleSum(f, x, y, w, a) + RectangleSum(f, x, y + a, w, b)
    decreases b
  {
    if b > 0 {
      RectangleSplitsRows(f, x, y, w, a, b - 1);
      assert y + (a + b) - 1 == y + a + b - 1;
    }
  }

  lemma {:induction false} RectangleSplitsColumns(f: Image, x: int, y: int, a: nat, b: nat, h: nat)
    ensures RectangleSum(f, x, y, a + b, h) == RectangleSum(f, x, y, a, h) + RectangleSum(f, x + a, y, b, h)
    decreases h
  {
    if h > 0 {
      RectangleSplitsColumns(f, x, y, a, b, h - 1);
      RowSplits(f, x, y + h - 1, a, b);
    }
  }

  /** The blocks of an image, each summed. */
  function Blocks(f: Image, scale: nat): Image {
    (px: int, py: int) => RectangleSum(f, scale * px, scale * py, scale, scale)
  }

  lemma {:induction false} StripIsBlocks(f: Image, scale: nat, n: nat, py: int)
    ensures RectangleSum(f, 0, scale * py, scale * n, scale) == RowSum(Blocks(f, scale), 0, py, n)
  {
    if n == 0 {
      NothingWide(f, 0, scale * py, scale);
      assert scale * n == 0;
    } else {
      StripIsBlocks(f, scale, n - 1, py);
      var before := scale * (n - 1);
      MulMonotone(0, n - 1, scale);
      assert scale * n == before + scale;
      RectangleSplitsColumns(f, 0, scale * py, before, scale, scale);
      assert Blocks(f, scale)(0 + n - 1, py) == RectangleSum(f, before, scale * py, scale, scale);
    }
  }

  lemma {:induction false} NothingWide(f: Image, x: int, y: int, h: nat)
    ensures RectangleSum(f, x, y, 0, h) == 0.0
    decreases h
  {
    if h > 0 { NothingWide(f, x, y, h - 1); }
  }

  /** Summing every block is summing every texel, once. */
  lemma {:induction false} SceneIsBlocks(f: Image, scale: nat, w: nat, h: nat)
    ensures scale * w >= 0 && scale * h >= 0
    ensures RectangleSum(f, 0, 0, scale * w, scale * h) == RectangleSum(Blocks(f, scale), 0, 0, w, h)
    decreases h
  {
    MulMonotone(0, w, scale);
    if h == 0 {
      assert scale * h == 0;
    } else {
      SceneIsBlocks(f, scale, w, h - 1);
      StripIsBlocks(f, scale, w, h - 1);
      var before := scale * (h - 1);
      assert scale * h == before + scale;
      RectangleSplitsRows(f, 0, 0, scale * w, before, scale);
    }
  }

  /** The scene's size at a scale, in machine words. */
  function SceneSize(guest: int, scale: int): int {
    scale * guest % WORD
  }

  /** At scale N with the window at the guest's size the picture fills the window and there are N
      taps along each axis. */
  lemma {:induction false} GuestSizedWindow(scale: int, guestW: int, guestH: int)
    requires 1 <= scale <= MAX_TAPS && 0 < guestW && 0 < guestH
    requires scale * guestW < WORD && scale * guestH + guestH / 2 < WORD
    ensures SceneSize(guestW, scale) == scale * guestW && 0 < SceneSize(guestH, scale) == scale * guestH
    ensures guestH < WORD
    ensures Fit(SceneSize(guestW, scale), SceneSize(guestH, scale), guestW, guestH) == Rectangle(0, 0, guestW, guestH)
    ensures Taps(SceneSize(guestH, scale), guestH) == scale
  {
    SceneSizeExact(guestW, scale);
    SceneSizeExact(guestH, scale);
    SameShape(scale, guestW, guestH);
    TapsOfWhole(scale, guestH);
    hide *;
  }

  /** And every output pixel is the average of the N by N texels rendered for it. */
  lemma {:induction false} GuestSizedPixel(scene: Image, scale: int, guestW: int, guestH: int, px: int, py: int)
    requires 1 <= scale <= MAX_TAPS && 0 < guestW && 0 < guestH < WORD
    requires scale * guestW < WORD && scale * guestH + guestH / 2 < WORD
    requires 0 <= px < guestW && 0 <= py < guestH && IsWord(SceneSize(guestH, scale))
    ensures Resolved(scene, SceneSize(guestW, scale), SceneSize(guestH, scale), Rectangle(0, 0, guestW, guestH), px, py)
            == Averaged(Blocks(scene, scale)(px, py), scale)
  {
    var fit := Rectangle(0, 0, guestW, guestH);
    assert InPicture(fit, px, py);
    assert Blocks(scene, scale)(px, py) == RectangleSum(scene, scale * px, scale * py, scale, scale);
    hide *;
    GuestSizedWindow(scale, guestW, guestH);
    ResolvedIsBlock(scene, scale, fit, px, py);
    assert px - fit.x == px && py - fit.y == py;
  }

  lemma {:induction false} SceneSizeExact(guest: int, scale: int)
    requires 1 <= scale && 0 < guest && scale * guest < WORD
    ensures SceneSize(guest, scale) == scale * guest && 0 < scale * guest
  {
    MulMonotone(1, scale, guest);
  }

  lemma {:induction false} SameShape(scale: int, w: int, h: int)
    requires 0 < scale && 0 < w && 0 < h
    ensures 0 < scale * w && 0 < scale * h
    ensures Fit(scale * w, scale * h, w, h) == Rectangle(0, 0, w, h)
  {
    MulMonotone(1, scale, w);
    MulMonotone(1, scale, h);
    assert scale * w * h == w * (scale * h);
  }
}
