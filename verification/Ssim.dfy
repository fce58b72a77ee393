/**
 * Windowed structural similarity of two grey images over real pixels, the crop it is applied to, and
 * the verdict over the regions of a golden image.
 */
module Ssim {
  import opened Wrappers

  const C1 := 6.5025
  const C2 := 58.5225
  const WINDOW := 8
  const STRIDE := 3

  // px: row by row.
  datatype GrayImage = GrayImage(px: seq<real>, width: int, height: int)

  predicate Shaped(img: GrayImage) {
    img.width >= 0 && img.height >= 0 && |img.px| == img.width * img.height
  }

  predicate SameShape(a: GrayImage, b: GrayImage) {
    Shaped(a) && Shaped(b) && a.width == b.width && a.height == b.height
  }

  // ----- Statistics of a sample -----

  function Sum(s: seq<real>): real { if s == [] then 0.0 else Sum(s[..|s| - 1]) + s[|s| - 1] }

  function Mean(s: seq<real>): real
    requires |s| > 0
  {
    Sum(s) / |s| as real
  }

  function Product(x: real, y: real): real { x * y }

  // The sum of the products of the deviations of two samples from two values.
  function Moment(s: seq<real>, t: seq<real>, p: real, q: real): real
    requires |s| == |t|
  {
    if s == [] then 0.0
    else Moment(s[..|s| - 1], t[..|s| - 1], p, q) + Product(s[|s| - 1] - p, t[|s| - 1] - q)
  }

  function Covariance(s: seq<real>, t: seq<real>): real
    requires |s| == |t| >= 2
  {
    Moment(s, t, Mean(s), Mean(t)) / (|s| - 1) as real
  }

  function Luminance(p: real, q: real): (real, real) { (2.0 * p * q + C1, p * p + q * q + C1) }

  function Ratio(numerator: real, denominator: real): real {
    if denominator > 0.0 then numerator / denominator else 1.0
  }

  function Weigh(luminance: (real, real), contrast: (real, real)): real {
    Ratio(Product(luminance.0, contrast.0), Product(luminance.1, contrast.1))
  }

  function Contrast(covariance: real, spread: real): (real, real) { (2.0 * covariance + C2, spread + C2) }

  // The similarity of two samples of equal size.
  function Score(s: seq<real>, t: seq<real>): real
    requires |s| == |t| >= 2
  {
    Weigh(Luminance(Mean(s), Mean(t)), Contrast(Covariance(s, t), Covariance(s, s) + Covariance(t, t)))
  }

  // ----- What a score means -----

  lemma PositiveProduct(x: real, y: real, product: real)
    requires x > 0.0 && y > 0.0 && product == x * y
    ensures product > 0.0
  {}

  lemma Opposite(x: real, y: real, product: real)
    requires y == -x && product == x * x
    ensures product == y * y
  {}

  lemma SquareIs(x: real, product: real)
    requires product == x * x
    ensures product >= 0.0 && (product == 0.0 <==> x == 0.0)
  {
    if x > 0.0 {
      PositiveProduct(x, x, product);
    } else if x < 0.0 {
      Opposite(x, -x, product);
      PositiveProduct(-x, -x, product);
    }
  }

  lemma Square(x: real)
    ensures x * x >= 0.0 && (x * x == 0.0 <==> x == 0.0)
  {
    SquareIs(x, x * x);
  }

  lemma Squares(p: real, q: real)
    ensures p * p + q * q - 2.0 * p * q == (p - q) * (p - q)
    ensures p * p + q * q + 2.0 * p * q == (p + q) * (p + q)
  {}

  lemma LuminanceBound(p: real, q: real)
    ensures var (l, lMax) := Luminance(p, q); lMax > 0.0 && -lMax < l <= lMax && (l == lMax <==> p == q)
  {
    Squares(p, q);
    Square(p - q);
    Square(p + q);
    Square(p);
    Square(q);
  }

  lemma {:induction false} MomentSymmetric(s: seq<real>, t: seq<real>, p: real, q: real)
    requires |s| == |t|
    ensures Moment(s, t, p, q) == Moment(t, s, q, p)
    decreases |s|
  {
    if s != [] {
      MomentSymmetric(s[..|s| - 1], t[..|s| - 1], p, q);
    }
  }

  // The deviations of two samples agree everywhere.
  ghost predicate SameDeviations(s: seq<real>, t: seq<real>, p: real, q: real)
    requires |s| == |t|
  {
    forall i :: 0 <= i < |s| ==> s[i] - p == t[i] - q
  }

  // One more pair of deviations keeps a mixed moment within its bounds.
  lemma OneMorePair(m: real, v: real, x: real, y: real)
    requires -v <= 2.0 * m <= v
    ensures Product(x, x) >= 0.0 && Product(y, y) >= 0.0
    ensures -(v + Product(x, x) + Product(y, y)) <= 2.0 * (m + Product(x, y)) <= v + Product(x, x) + Product(y, y)
    ensures 2.0 * (m + Product(x, y)) == v + Product(x, x) + Product(y, y) <==> 2.0 * m == v && x == y
  {
    PairBound(x, y, Product(x, x), Product(y, y), Product(x, y));
    hide Product;
  }

  // Twice a product is at most the two squares together, with equality for equal factors.
  lemma PairBound(x: real, y: real, xx: real, yy: real, xy: real)
    requires xx == x * x && yy == y * y && xy == x * y
    ensures xx >= 0.0 && yy >= 0.0 && -(xx + yy) <= 2.0 * xy <= xx + yy && (2.0 * xy == xx + yy <==> x == y)
  {
    SquareIs(x, xx);
    SquareIs(y, yy);
    var less, more := (x - y) * (x - y), (x + y) * (x + y);
    assert less == xx + yy - 2.0 * xy && more == xx + yy + 2.0 * xy;
    SquareIs(x - y, less);
    SquareIs(x + y, more);
  }

  // Twice the mixed moment is at most the two moments together, with equality for equal deviations.
  lemma {:induction false} MomentBound(s: seq<real>, t: seq<real>, p: real, q: real)
    requires |s| == |t|
    ensures Moment(s, s, p, p) >= 0.0 && Moment(t, t, q, q) >= 0.0
    ensures var both := Moment(s, s, p, p) + Moment(t, t, q, q); -both <= 2.0 * Moment(s, t, p, q) <= both
    ensures 2.0 * Moment(s, t, p, q) == Moment(s, s, p, p) + Moment(t, t, q, q) <==> SameDeviations(s, t, p, q)
    decreases |s|
  {
    hide Moment, SameDeviations, Product;
    if s == [] {
      MomentOfNothing(s, t, p, q);
      MomentOfNothing(s, s, p, p);
      MomentOfNothing(t, t, q, q);
    } else {
      var k := |s| - 1;
      var s', t' := s[..k], t[..k];
      MomentBound(s', t', p, q);
      MomentStep(s, t, p, q);
      MomentStep(s, s, p, p);
      MomentStep(t, t, q, q);
      OneMorePair(Moment(s', t', p, q), Moment(s', s', p, p) + Moment(t', t', q, q), s[k] - p, t[k] - q);
      OneMoreDeviation(s, t, p, q);
    }
  }

  lemma MomentOfNothing(s: seq<real>, t: seq<real>, p: real, q: real)
    requires |s| == |t| == 0
    ensures Moment(s, t, p, q) == 0.0 && SameDeviations(s, t, p, q)
  {}

  lemma MomentStep(s: seq<real>, t: seq<real>, p: real, q: real)
    requires |s| == |t| > 0
    ensures var k := |s| - 1; Moment(s, t, p, q) == Moment(s[..k], t[..k], p, q) + Product(s[k] - p, t[k] - q)
  {}

  lemma OneMoreDeviation(s: seq<real>, t: seq<real>, p: real, q: real)
    requires |s| == |t| > 0
    ensures var k := |s| - 1; SameDeviations(s, t, p, q) <==>
              SameDeviations(s[..k], t[..k], p, q) && s[k] - p == t[k] - q
  {
    var k := |s| - 1;
    if SameDeviations(s[..k], t[..k], p, q) && s[k] - p == t[k] - q {
      forall i | 0 <= i < |s|
        ensures s[i] - p == t[i] - q
      {
        if i < k {
          assert s[..k][i] - p == t[..k][i] - q;
        }
      }
    }
    if SameDeviations(s, t, p, q) {
      assert s[k] - p == t[k] - q;
    }
  }

  // Division by a positive number keeps order.
  lemma Scaled(x: real, y: real, n: real)
    requires n > 0.0
    ensures x <= y <==> x / n <= y / n
    ensures x == y <==> x / n == y / n
    ensures -(x / n) == (-x) / n && 2.0 * (x / n) == (2.0 * x) / n && x / n + y / n == (x + y) / n
  {}

  lemma CovarianceBound(s: seq<real>, t: seq<real>)
    requires |s| == |t| >= 2
    ensures var c, v := 2.0 * Covariance(s, t) + C2, Covariance(s, s) + Covariance(t, t) + C2;
      v > 0.0 && -v <= c <= v && (c == v <==> SameDeviations(s, t, Mean(s), Mean(t)))
  {
    var p, q, n := Mean(s), Mean(t), (|s| - 1) as real;
    MomentBound(s, t, p, q);
    var m, vs, vt := Moment(s, t, p, q), Moment(s, s, p, p), Moment(t, t, q, q);
    Scaled(2.0 * m, vs + vt, n);
    Scaled(-(vs + vt), 2.0 * m, n);
    Scaled(vs, vt, n);
    Scaled(m, 0.0, n);
    Scaled(0.0, vs + vt, n);
    Scaled(vs + vt, 0.0, n);
  }

  lemma ProductAtMost(x: real, xMax: real, y: real, yMax: real, product: real, max: real)
    requires 0.0 <= x <= xMax && 0.0 < yMax && y <= yMax && product == x * y && max == xMax * yMax
    ensures product <= max
    ensures x < xMax ==> product < max
    ensures x == xMax > 0.0 && y < yMax ==> product < max
  {
    Less(y, yMax, x);
    Less(x, xMax, yMax);
  }

  // Multiplying by a number that is not negative keeps order.
  lemma Less(x: real, y: real, n: real)
    requires n >= 0.0 && x <= y
    ensures x * n <= y * n && (x < y && n > 0.0 ==> x * n < y * n)
  {
    assert (y - x) * n >= 0.0;
    if x < y && n > 0.0 { assert (y - x) * n > 0.0; }
  }

  lemma Signs(x: real, y: real, product: real)
    requires product == x * y
    ensures (-x) * y == -product && x * (-y) == -product && (-x) * (-y) == product
  {}

  lemma ProductBound(x: real, xMax: real, y: real, yMax: real, product: real, max: real)
    requires xMax > 0.0 && yMax > 0.0 && -xMax < x <= xMax && -yMax <= y <= yMax
    requires product == x * y && max == xMax * yMax
    ensures max > 0.0 && -max <= product <= max
    ensures product == max <==> x == xMax && y == yMax
  {
    Signs(x, y, product);
    PositiveProduct(xMax, yMax, max);
    if x >= 0.0 {
      ProductAtMost(x, xMax, y, yMax, product, max);
      ProductAtMost(x, xMax, -y, yMax, -product, max);
    } else {
      ProductAtMost(-x, xMax, y, yMax, -product, max);
      ProductAtMost(-x, xMax, -y, yMax, product, max);
    }
  }

  lemma RatioBound(x: real, max: real)
    requires max > 0.0 && -max <= x <= max
    ensures -1.0 <= Ratio(x, max) <= 1.0 && (Ratio(x, max) == 1.0 <==> x == max)
  {
    Scaled(x, max, max);
    Scaled(-max, x, max);
    assert max / max == 1.0;
  }

  lemma SameDeviationsSameSample(s: seq<real>, t: seq<real>, p: real)
    requires |s| == |t|
    ensures SameDeviations(s, t, p, p) <==> s == t
  {
    if SameDeviations(s, t, p, p) {
      forall i | 0 <= i < |s|
        ensures s[i] == t[i]
      {}
    }
  }

  lemma WeighBound(l: (real, real), c: (real, real))
    requires l.1 > 0.0 && -l.1 < l.0 <= l.1 && c.1 > 0.0 && -c.1 <= c.0 <= c.1
    ensures -1.0 <= Weigh(l, c) <= 1.0 && (Weigh(l, c) == 1.0 <==> l.0 == l.1 && c.0 == c.1)
  {
    ProductsBound(l.0, l.1, c.0, c.1);
    hide Product, Ratio;
    RatioBound(Product(l.0, c.0), Product(l.1, c.1));
  }

  lemma ProductsBound(x: real, xMax: real, y: real, yMax: real)
    requires xMax > 0.0 && yMax > 0.0 && -xMax < x <= xMax && -yMax <= y <= yMax
    ensures Product(xMax, yMax) > 0.0 && -Product(xMax, yMax) <= Product(x, y) <= Product(xMax, yMax)
    ensures Product(x, y) == Product(xMax, yMax) <==> x == xMax && y == yMax
  {
    ProductBound(x, xMax, y, yMax, Product(x, y), Product(xMax, yMax));
  }

  /** A window's score lies in [-1, 1], and is 1 exactly when the two windows are the same. */
  lemma ScoreBound(s: seq<real>, t: seq<real>)
    requires |s| == |t| >= 2
    ensures -1.0 <= Score(s, t) <= 1.0
    ensures Score(s, t) == 1.0 <==> s == t
  {
    hide Luminance, Covariance, Mean, SameDeviations, Weigh;
    LuminanceBound(Mean(s), Mean(t));
    CovarianceBound(s, t);
    WeighBound(Luminance(Mean(s), Mean(t)), Contrast(Covariance(s, t), Covariance(s, s) + Covariance(t, t)));
    if Mean(s) == Mean(t) {
      SameDeviationsSameSample(s, t, Mean(s));
    }
  }

  lemma CovarianceSymmetric(s: seq<real>, t: seq<real>)
    requires |s| == |t| >= 2
    ensures Covariance(s, t) == Covariance(t, s)
  {
    hide Moment, Mean;
    MomentSymmetric(s, t, Mean(s), Mean(t));
  }

  lemma LuminanceSymmetric(p: real, q: real)
    ensures Luminance(p, q) == Luminance(q, p)
  {}

  lemma ScoreSymmetric(s: seq<real>, t: seq<real>)
    requires |s| == |t| >= 2
    ensures Score(s, t) == Score(t, s)
  {
    CovarianceSymmetric(s, t);
    LuminanceSymmetric(Mean(s), Mean(t));
    hide Luminance, Covariance, Mean, Weigh;
    assert Covariance(s, s) + Covariance(t, t) == Covariance(t, t) + Covariance(s, s);
  }

  // ----- Windows -----

  function Pixel(img: GrayImage, x: int, y: int): real {
    var i := y * img.width + x;
    if 0 <= i < |img.px| then img.px[i] else 0.0
  }

  // The first k pixels, row by row, of the window of this size at this corner.
  function Window(img: GrayImage, left: int, top: int, win: nat, k: nat): (s: seq<real>)
    requires win > 0
    ensures |s| == k
  {
    if k == 0 then [] else Window(img, left, top, win, k - 1) + [Pixel(img, left + (k - 1) % win, top + (k - 1) / win)]
  }

  function WindowSize(w: int, h: int): int { Min(WINDOW, Min(w, h)) }

  // How many windows there are along a side.
  function Steps(side: int, win: int): int { (side - win) / STRIDE + 1 }

  function WindowScore(a: GrayImage, b: GrayImage, win: nat, left: int, top: int): real
    requires win >= 2
  {
    var n := win * win;
    assert n >= 2;
    Score(Window(a, left, top, win, n), Window(b, left, top, win, n))
  }

  // The scores of the first k windows together, row by row.
  function Total(a: GrayImage, b: GrayImage, win: nat, across: nat, k: nat): real
    requires win >= 2 && across > 0
  {
    if k == 0 then 0.0
    else
      Total(a, b, win, across, k - 1) +
      WindowScore(a, b, win, STRIDE * ((k - 1) % across), STRIDE * ((k - 1) / across))
  }

  function Windows(w: int, h: int): nat
    requires WindowSize(w, h) >= 2
  {
    var win := WindowSize(w, h);
    Steps(w, win) * Steps(h, win)
  }

  lemma SomeWindow(w: int, h: int)
    requires WindowSize(w, h) >= 2
    ensures Windows(w, h) > 0
  {
    var win := WindowSize(w, h);
    assert Steps(w, win) >= 1 && Steps(h, win) >= 1;
    assert Steps(w, win) * Steps(h, win) >= Steps(h, win);
  }

  function SsimOf(a: GrayImage, b: GrayImage): real {
    if a.width <= 0 || a.height <= 0 || WindowSize(a.width, a.height) <= 1 then 0.0
    else
      SomeWindow(a.width, a.height);
      var win := WindowSize(a.width, a.height);
      Total(a, b, win, Steps(a.width, win), Windows(a.width, a.height)) / Windows(a.width, a.height) as real
  }

  // ----- The loops -----

  lemma AtLeastOnce(n: int, d: int, product: int)
    requires n >= 1 && d >= 0 && product == n * d
    ensures product >= d
  {
    assert (n - 1) * d >= 0;
  }

  lemma RowAndColumn(row: nat, column: nat, across: nat, k: nat)
    requires column < across && k == row * across + column
    ensures k / across == row && k % across == column
  {
    var q, r := k / across, k % across;
    assert k == q * across + r;
    var more, less := (row - q) * across, (q - row) * across;
    assert more == row * across - q * across && less == -more;
    if q < row {
      AtLeastOnce(row - q, across, more);
    } else if q > row {
      AtLeastOnce(q - row, across, less);
    }
  }

  lemma NextRow(y: int, win: int, start: int)
    requires start == y * win
    ensures start + win == (y + 1) * win
  {}

  lemma InBounds(x: int, y: int, w: int, h: int, i: int)
    requires 0 <= x < w && 0 <= y < h && i == y * w + x
    ensures 0 <= i < w * h
  {
    AtLeastOnce(h - y, w, (h - y) * w);
    assert (h - y) * w == h * w - y * w;
  }

  predicate Inside(img: GrayImage, left: int, top: int, win: int) {
    Shaped(img) && 0 <= left && left + win <= img.width && 0 <= top && top + win <= img.height
  }

  // The next pixel of a window is read from inside the image.
  lemma NextPixel(img: GrayImage, left: int, top: int, win: nat, y: nat, x: nat, k: nat, i: int)
    requires Inside(img, left, top, win) && x < win && y < win && k == y * win + x
    requires i == (top + y) * img.width + (left + x)
    ensures 0 <= i < |img.px| && Window(img, left, top, win, k + 1) == Window(img, left, top, win, k) + [img.px[i]]
  {
    InBounds(left + x, top + y, img.width, img.height, i);
    RowAndColumn(y, x, win, k);
  }

  method WindowMeans(a: GrayImage, b: GrayImage, left: int, top: int, win: nat) returns (meanA: real, meanB: real)
    requires win >= 2 && a.width == b.width && Inside(a, left, top, win) && Inside(b, left, top, win)
    requires win * win >= 2
    ensures meanA == Mean(Window(a, left, top, win, win * win)) && meanB == Mean(Window(b, left, top, win, win * win))
  {
    hide Window, Sum, Inside;
    meanA, meanB := 0.0, 0.0;
    var y: nat := 0;
    ghost var start: nat := 0;
    EmptyWindow(a, left, top, win);
    EmptyWindow(b, left, top, win);
    while y < win
      invariant y <= win && start == y * win
      invariant meanA == Sum(Window(a, left, top, win, start)) && meanB == Sum(Window(b, left, top, win, start))
    {
      var x: nat := 0;
      while x < win
        invariant x <= win && start == y * win
        invariant meanA == Sum(Window(a, left, top, win, start + x))
                  && meanB == Sum(Window(b, left, top, win, start + x))
      {
        var i := (top + y) * a.width + (left + x);
        NextPixel(a, left, top, win, y, x, start + x, i);
        NextPixel(b, left, top, win, y, x, start + x, i);
        SumOfMore(Window(a, left, top, win, start + x), a.px[i]);
        SumOfMore(Window(b, left, top, win, start + x), b.px[i]);
        meanA := meanA + a.px[i];
        meanB := meanB + b.px[i];
        x := x + 1;
      }
      NextRow(y, win, start);
      y, start := y + 1, start + win;
    }
    var n := win * win;
    meanA := meanA / n as real;
    meanB := meanB / n as real;
  }

  lemma EmptyWindow(img: GrayImage, left: int, top: int, win: nat)
    requires win > 0
    ensures Sum(Window(img, left, top, win, 0)) == 0.0
  {}

  lemma SumOfMore(s: seq<real>, x: real)
    ensures Sum(s + [x]) == Sum(s) + x
  {
    assert (s + [x])[..|s|] == s;
  }

  lemma MomentOfMore(s: seq<real>, t: seq<real>, x: real, y: real, p: real, q: real)
    requires |s| == |t|
    ensures Moment(s + [x], t + [y], p, q) == Moment(s, t, p, q) + Product(x - p, y - q)
  {
    assert (s + [x])[..|s|] == s && (t + [y])[..|t|] == t;
  }

  method WindowMoments(a: GrayImage, b: GrayImage, left: int, top: int, win: nat, meanA: real, meanB: real)
    returns (varA: real, varB: real, covAB: real)
    requires win >= 2 && a.width == b.width && Inside(a, left, top, win) && Inside(b, left, top, win)
    ensures var wa, wb := Window(a, left, top, win, win * win), Window(b, left, top, win, win * win);
      && varA == Moment(wa, wa, meanA, meanA) && varB == Moment(wb, wb, meanB, meanB)
      && covAB == Moment(wa, wb, meanA, meanB)
  {
    hide Window, Moment, Inside;
    varA, varB, covAB := 0.0, 0.0, 0.0;
    MomentOfNothing(Window(a, left, top, win, 0), Window(a, left, top, win, 0), meanA, meanA);
    MomentOfNothing(Window(b, left, top, win, 0), Window(b, left, top, win, 0), meanB, meanB);
    MomentOfNothing(Window(a, left, top, win, 0), Window(b, left, top, win, 0), meanA, meanB);
    var y: nat := 0;
    ghost var start: nat := 0;
    while y < win
      invariant y <= win && start == y * win
      invariant varA == Moment(Window(a, left, top, win, start), Window(a, left, top, win, start), meanA, meanA)
      invariant varB == Moment(Window(b, left, top, win, start), Window(b, left, top, win, start), meanB, meanB)
      invariant covAB == Moment(Window(a, left, top, win, start), Window(b, left, top, win, start), meanA, meanB)
    {
      var x: nat := 0;
      while x < win
        invariant x <= win && start == y * win
        invariant varA
               == Moment(Window(a, left, top, win, start + x), Window(a, left, top, win, start + x), meanA, meanA)
        invariant varB
               == Moment(Window(b, left, top, win, start + x), Window(b, left, top, win, start + x), meanB, meanB)
        invariant covAB
               == Moment(Window(a, left, top, win, start + x), Window(b, left, top, win, start + x), meanA, meanB)
      {
        var i := (top + y) * a.width + (left + x);
        NextPixel(a, left, top, win, y, x, start + x, i);
        NextPixel(b, left, top, win, y, x, start + x, i);
        ghost var wa, wb := Window(a, left, top, win, start + x), Window(b, left, top, win, start + x);
        MomentOfMore(wa, wa, a.px[i], a.px[i], meanA, meanA);
        MomentOfMore(wb, wb, b.px[i], b.px[i], meanB, meanB);
        MomentOfMore(wa, wb, a.px[i], b.px[i], meanA, meanB);
        var da, db := a.px[i] - meanA, b.px[i] - meanB;
        varA := varA + da * da;
        varB := varB + db * db;
        covAB := covAB + da * db;
        x := x + 1;
      }
      NextRow(y, win, start);
      y, start := y + 1, start + win;
    }
  }

  method ScoreWindow(a: GrayImage, b: GrayImage, left: int, top: int, win: nat) returns (score: real)
    requires win >= 2 && a.width == b.width && Inside(a, left, top, win) && Inside(b, left, top, win)
    ensures score == WindowScore(a, b, win, left, top)
  {
    hide Window, Moment, Mean, Luminance, Contrast, Weigh, Inside;
    var n := win * win;
    assert n >= 2;
    var meanA, meanB := WindowMeans(a, b, left, top, win);
    var varA, varB, covAB := WindowMoments(a, b, left, top, win, meanA, meanB);
    varA, varB, covAB := varA / (n - 1) as real, varB / (n - 1) as real, covAB / (n - 1) as real;
    var luminance := Luminance(meanA, meanB);
    var contrast := Contrast(covAB, varA + varB);
    score := Weigh(luminance, contrast);
  }

  /** The loops over all windows compute the mean of their scores; there always is a window, so the
      fallback for none is never reached. */
  method ComputeSsim(a: GrayImage, b: GrayImage) returns (score: real)
    requires SameShape(a, b)
    ensures score == SsimOf(a, b)
  {
    hide WindowScore, Total, Shaped;
    var w, h := a.width, a.height;
    if w <= 0 || h <= 0 {
      return 0.0;
    }
    var win := Min(WINDOW, Min(w, h));
    if win <= 1 {
      return 0.0;
    }
    ghost var across, down := Steps(w, win), Steps(h, win);
    StepsInRange(w, win);
    StepsInRange(h, win);
    hide Steps, SsimOf;
    var sum := 0.0;
    var windows: nat := 0;
    NoWindows(a, b, win, across);
    var top := 0;
    ghost var row: nat, start: nat := 0, 0;
    while top <= h - win
      invariant top == STRIDE * row && row <= down && start == row * across && windows == start
      invariant sum == Total(a, b, win, across, windows)
      decreases h - top
    {
      var left := 0;
      ghost var column: nat := 0;
      while left <= w - win
        invariant left == STRIDE * column && column <= across && windows == start + column
        invariant sum == Total(a, b, win, across, windows)
        decreases w - left
      {
        NextWindow(a, b, win, across, row, column, windows);
        var one := ScoreWindow(a, b, left, top, win);
        sum := sum + one;
        windows := windows + 1;
        left := left + STRIDE;
        column := column + 1;
      }
      NextRow(row, across, start);
      top := top + STRIDE;
      row, start := row + 1, start + across;
    }
    Averaged(a, b, win, windows);
    if windows == 0 {
      assert false;
    }
    return sum / windows as real;
  }

  // The steps along a side are those that leave room for a window.
  lemma StepsInRange(side: int, win: int)
    requires side >= win
    ensures Steps(side, win) > 0
    ensures forall i: nat :: STRIDE * i <= side - win <==> i < Steps(side, win)
  {}

  lemma Averaged(a: GrayImage, b: GrayImage, win: nat, windows: nat)
    requires win == WindowSize(a.width, a.height) >= 2 && windows == Steps(a.height, win) * Steps(a.width, win)
    ensures windows > 0
    ensures Steps(a.width, win) > 0 && SsimOf(a, b) == Total(a, b, win, Steps(a.width, win), windows) / windows as real
  {
    SomeWindow(a.width, a.height);
    hide Steps, Total;
  }

  lemma NoWindows(a: GrayImage, b: GrayImage, win: nat, across: nat)
    requires win >= 2 && across > 0
    ensures Total(a, b, win, across, 0) == 0.0
  {}

  lemma NextWindow(a: GrayImage, b: GrayImage, win: nat, across: nat, row: nat, column: nat, k: nat)
    requires win >= 2 && column < across && k == row * across + column
    ensures Total(a, b, win, across, k + 1)
            == Total(a, b, win, across, k) + WindowScore(a, b, win, STRIDE * column, STRIDE * row)
  {
    hide WindowScore;
    RowAndColumn(row, column, across, k);
  }

  // ----- What the score of two images means -----

  // The corner of the k-th window.
  function Left(across: nat, k: nat): int
    requires across > 0
  {
    STRIDE * (k % across)
  }

  function Top(across: nat, k: nat): int
    requires across > 0
  {
    STRIDE * (k / across)
  }

  ghost predicate WindowsAgree(a: GrayImage, b: GrayImage, win: nat, left: int, top: int)
    requires win > 0
  {
    Window(a, left, top, win, win * win) == Window(b, left, top, win, win * win)
  }

  lemma {:induction false} TotalBound(a: GrayImage, b: GrayImage, win: nat, across: nat, k: nat)
    requires win >= 2 && across > 0
    ensures -(k as real) <= Total(a, b, win, across, k) <= k as real
    ensures Total(a, b, win, across, k) == k as real <==>
            forall j: nat :: j < k ==> WindowsAgree(a, b, win, Left(across, j), Top(across, j))
    decreases k
  {
    hide Score, Window;
    if k > 0 {
      TotalBound(a, b, win, across, k - 1);
      var left, top := Left(across, k - 1), Top(across, k - 1);
      WindowScoreBound(a, b, win, left, top);
      hide WindowScore, WindowsAgree;
      assert Total(a, b, win, across, k) == Total(a, b, win, across, k - 1) + WindowScore(a, b, win, left, top);
      assert k as real == (k - 1) as real + 1.0;
    }
  }

  lemma WindowScoreBound(a: GrayImage, b: GrayImage, win: nat, left: int, top: int)
    requires win >= 2
    ensures -1.0 <= WindowScore(a, b, win, left, top) <= 1.0
    ensures WindowScore(a, b, win, left, top) == 1.0 <==> WindowsAgree(a, b, win, left, top)
  {
    hide Score, Window;
    var n := win * win;
    assert n >= 2;
    ScoreBound(Window(a, left, top, win, n), Window(b, left, top, win, n));
  }

  lemma {:induction false} TotalSymmetric(a: GrayImage, b: GrayImage, win: nat, across: nat, k: nat)
    requires win >= 2 && across > 0
    ensures Total(a, b, win, across, k) == Total(b, a, win, across, k)
    decreases k
  {
    hide Score, Window;
    if k > 0 {
      TotalSymmetric(a, b, win, across, k - 1);
      var left, top, n := Left(across, k - 1), Top(across, k - 1), win * win;
      assert n >= 2;
      ScoreSymmetric(Window(a, left, top, win, n), Window(b, left, top, win, n));
    }
  }

  /** The score of two images of one shape lies in [-1, 1] and does not depend on their order. */
  lemma SsimBoundedAndSymmetric(a: GrayImage, b: GrayImage)
    requires SameShape(a, b)
    ensures -1.0 <= SsimOf(a, b) <= 1.0
    ensures SsimOf(a, b) == SsimOf(b, a)
  {
    if a.width > 0 && a.height > 0 && WindowSize(a.width, a.height) > 1 {
      SomeWindow(a.width, a.height);
      var win := WindowSize(a.width, a.height);
      var across, k := Steps(a.width, win), Windows(a.width, a.height);
      TotalBound(a, b, win, across, k);
      TotalSymmetric(a, b, win, across, k);
      RatioBound(Total(a, b, win, across, k), k as real);
    }
  }

  // A place along a side that the i-th step covers, and one that any step covers.
  predicate InStep(side: int, win: int, x: int, i: nat) {
    i < Steps(side, win) && STRIDE * i <= x < STRIDE * i + win
  }

  ghost predicate OnStep(side: int, win: int, x: int) { exists i: nat :: InStep(side, win, x, i) }

  // A pixel that some window covers.
  ghost predicate Covered(w: int, h: int, x: int, y: int) {
    OnStep(w, WindowSize(w, h), x) && OnStep(h, WindowSize(w, h), y)
  }

  lemma {:induction false} WindowAt(img: GrayImage, left: int, top: int, win: nat, n: nat, k: nat)
    requires win > 0 && k < n
    ensures Window(img, left, top, win, n)[k] == Pixel(img, left + k % win, top + k / win)
    decreases n
  {
    if k < n - 1 { WindowAt(img, left, top, win, n - 1, k); }
  }

  // Two windows are the same exactly when they agree at each of their pixels.
  lemma AgreeingWindows(a: GrayImage, b: GrayImage, win: nat, left: int, top: int)
    requires win > 0
    ensures WindowsAgree(a, b, win, left, top) <==>
            forall x, y :: left <= x < left + win && top <= y < top + win ==> Pixel(a, x, y) == Pixel(b, x, y)
  {
    hide Window, Pixel;
    var n := win * win;
    var wa, wb := Window(a, left, top, win, n), Window(b, left, top, win, n);
    if wa == wb {
      forall x, y | left <= x < left + win && top <= y < top + win
        ensures Pixel(a, x, y) == Pixel(b, x, y)
      {
        var k := (y - top) * win + (x - left);
        InBounds(x - left, y - top, win, win, k);
        RowAndColumn(y - top, x - left, win, k);
        WindowAt(a, left, top, win, n, k);
        WindowAt(b, left, top, win, n, k);
      }
    }
    if forall x, y :: left <= x < left + win && top <= y < top + win ==> Pixel(a, x, y) == Pixel(b, x, y) {
      forall k: nat | k < n
        ensures wa[k] == wb[k]
      {
        WindowAt(a, left, top, win, n, k);
        WindowAt(b, left, top, win, n, k);
        RowInWindow(k, win);
      }
      assert wa == wb;
    }
  }

  lemma RowInWindow(k: nat, win: nat)
    requires k < win * win
    ensures win > 0 && 0 <= k % win < win && 0 <= k / win < win
  {
    if k / win >= win {
      AtLeastOnce(k / win - win + 1, win, (k / win - win + 1) * win);
    }
  }

  ghost predicate AllAgree(a: GrayImage, b: GrayImage, win: nat, across: nat, k: nat)
    requires win > 0 && across > 0
  {
    forall n: nat :: n < k ==> WindowsAgree(a, b, win, Left(across, n), Top(across, n))
  }

  // A covered pixel lies in one of the windows.
  lemma AgreeOnCovered(a: GrayImage, b: GrayImage, win: nat, across: nat, down: nat, x: int, y: int)
    requires win > 0 && across > 0 && AllAgree(a, b, win, across, across * down)
    requires Steps(a.width, win) == across && Steps(a.height, win) == down
    requires OnStep(a.width, win, x) && OnStep(a.height, win, y)
    ensures Pixel(a, x, y) == Pixel(b, x, y)
  {
    hide Pixel, WindowsAgree;
    var i: nat :| InStep(a.width, win, x, i);
    var j: nat :| InStep(a.height, win, y, j);
    var n := j * across + i;
    InBounds(i, j, across, down, n);
    RowAndColumn(j, i, across, n);
    assert WindowsAgree(a, b, win, Left(across, n), Top(across, n));
    AgreeingWindows(a, b, win, STRIDE * i, STRIDE * j);
  }

  // Every pixel of a window is covered.
  lemma WindowsAreCovered(a: GrayImage, b: GrayImage, win: nat, across: nat, down: nat, n: nat)
    requires win > 0 && across > 0 && n < across * down
    requires Steps(a.width, win) == across && Steps(a.height, win) == down
    requires forall x, y :: OnStep(a.width, win, x) && OnStep(a.height, win, y) ==> Pixel(a, x, y) == Pixel(b, x, y)
    ensures WindowsAgree(a, b, win, Left(across, n), Top(across, n))
  {
    hide Pixel, WindowsAgree;
    var i, j := n % across, n / across;
    RowsInImage(n, across, down);
    forall x, y | STRIDE * i <= x < STRIDE * i + win && STRIDE * j <= y < STRIDE * j + win
      ensures Pixel(a, x, y) == Pixel(b, x, y)
    {
      assert InStep(a.width, win, x, i) && InStep(a.height, win, y, j);
    }
    AgreeingWindows(a, b, win, STRIDE * i, STRIDE * j);
  }

  lemma AllWindowsAgree(a: GrayImage, b: GrayImage, win: nat, across: nat, down: nat)
    requires win > 0 && across > 0 && Steps(a.width, win) == across && Steps(a.height, win) == down
    ensures AllAgree(a, b, win, across, across * down) <==>
            forall x, y :: OnStep(a.width, win, x) && OnStep(a.height, win, y) ==> Pixel(a, x, y) == Pixel(b, x, y)
  {
    hide Pixel, OnStep;
    if AllAgree(a, b, win, across, across * down) {
      forall x, y | OnStep(a.width, win, x) && OnStep(a.height, win, y)
        ensures Pixel(a, x, y) == Pixel(b, x, y)
      {
        AgreeOnCovered(a, b, win, across, down, x, y);
      }
    }
    if forall x, y :: OnStep(a.width, win, x) && OnStep(a.height, win, y) ==> Pixel(a, x, y) == Pixel(b, x, y) {
      forall n: nat | n < across * down
        ensures WindowsAgree(a, b, win, Left(across, n), Top(across, n))
      {
        WindowsAreCovered(a, b, win, across, down, n);
      }
    }
  }

  /** When both sides are at least 2 pixels, the score is 1 exactly when the images agree on every
      pixel that some window covers. */
  lemma SsimIsOne(a: GrayImage, b: GrayImage)
    requires SameShape(a, b) && a.width >= 2 && a.height >= 2
    ensures SsimOf(a, b) == 1.0 <==>
            forall x, y :: Covered(a.width, a.height, x, y) ==> Pixel(a, x, y) == Pixel(b, x, y)
  {
    SomeWindow(a.width, a.height);
    var win := WindowSize(a.width, a.height);
    var across, down := Steps(a.width, win), Steps(a.height, win);
    var k := Windows(a.width, a.height);
    TotalBound(a, b, win, across, k);
    RatioBound(Total(a, b, win, across, k), k as real);
    AllWindowsAgree(a, b, win, across, down);
    hide Total, Window, Pixel, OnStep, WindowsAgree;
    assert SsimOf(a, b) == 1.0 <==> AllAgree(a, b, win, across, k);
  }

  /** An image compared with itself scores 1, but 0 when a side is shorter than 2 pixels. */
  lemma SelfScore(a: GrayImage)
    requires Shaped(a)
    ensures SsimOf(a, a) == if a.width >= 2 && a.height >= 2 then 1.0 else 0.0
  {
    if a.width >= 2 && a.height >= 2 {
      SsimIsOne(a, a);
    }
  }

  lemma RowsInImage(n: nat, across: nat, down: nat)
    requires across > 0 && n < across * down
    ensures n % across < across && n / across < down
  {
    if n / across >= down {
      AtLeastOnce(n / across - down + 1, across, (n / across - down + 1) * across);
    }
  }

  // ----- Which pixels count -----

  // Every place along a side is covered when the steps leave no gap and the last one ends at the edge.
  predicate StepsFit(side: int, win: int) { (side - win) % STRIDE == 0 && (win >= STRIDE || side == win) }

  lemma StepsCover(side: int, win: int)
    requires 2 <= win <= side
    ensures StepsFit(side, win) <==> forall x :: 0 <= x < side ==> OnStep(side, win, x)
  {
    if StepsFit(side, win) {
      forall x | 0 <= x < side
        ensures OnStep(side, win, x)
      {
        var i := Min(x / STRIDE, Steps(side, win) - 1);
        assert InStep(side, win, x, i);
      }
    } else if (side - win) % STRIDE != 0 {
      assert !OnStep(side, win, side - 1);
    } else {
      assert !OnStep(side, win, 2);
    }
  }

  // The windows cover the whole image exactly when the steps fit along both sides.
  lemma WholeImageCounts(w: int, h: int)
    requires w >= 2 && h >= 2
    ensures (forall x, y :: 0 <= x < w && 0 <= y < h ==> Covered(w, h, x, y)) <==>
            StepsFit(w, WindowSize(w, h)) && StepsFit(h, WindowSize(w, h))
  {
    hide StepsFit, OnStep;
    var win := WindowSize(w, h);
    StepsCover(w, win);
    StepsCover(h, win);
    if forall x, y :: 0 <= x < w && 0 <= y < h ==> Covered(w, h, x, y) {
      forall x | 0 <= x < w
        ensures OnStep(w, win, x)
      {
        assert Covered(w, h, x, 0);
      }
      forall y | 0 <= y < h
        ensures OnStep(h, win, y)
      {
        assert Covered(w, h, 0, y);
      }
    }
  }

  // An image is determined by its shape and its pixels.
  lemma SamePixels(a: GrayImage, b: GrayImage)
    requires SameShape(a, b)
    requires forall x, y :: 0 <= x < a.width && 0 <= y < a.height ==> Pixel(a, x, y) == Pixel(b, x, y)
    ensures a == b
  {
    forall k | 0 <= k < |a.px|
      ensures a.px[k] == b.px[k]
    {
      var x, y := k % a.width, k / a.width;
      RowsInImage(k, a.width, a.height);
      assert k == y * a.width + x;
      assert Pixel(a, x, y) == a.px[k] && Pixel(b, x, y) == b.px[k];
    }
  }

  // Two images that agree wherever a window looks, and yet differ: one blank, one with a single dot.
  function Blank(w: int, h: int): (img: GrayImage)
    requires w >= 0 && h >= 0
    ensures Shaped(img) && img.width == w && img.height == h
  {
    AreaIsNat(w, h);
    GrayImage(seq(w * h, _ => 0.0), w, h)
  }

  function Dotted(w: int, h: int, x: int, y: int): (img: GrayImage)
    requires 0 <= x < w && 0 <= y < h
    ensures SameShape(Blank(w, h), img)
  {
    InBounds(x, y, w, h, y * w + x);
    Blank(w, h).(px := Blank(w, h).px[y * w + x := 255.0])
  }

  lemma OnlyTheDotDiffers(w: int, h: int, x: int, y: int, i: int, j: int)
    requires 0 <= x < w && 0 <= y < h && 0 <= i < w && 0 <= j < h
    ensures Pixel(Blank(w, h), i, j) == Pixel(Dotted(w, h, x, y), i, j) <==> i != x || j != y
  {
    var k, dot := j * w + i, y * w + x;
    InBounds(i, j, w, h, k);
    InBounds(x, y, w, h, dot);
    RowAndColumn(j, i, w, k);
    RowAndColumn(y, x, w, dot);
  }

  /** A pixel that no window covers does not count: a dot there leaves the score at 1, though the
      images differ. */
  lemma UncoveredDotScoresOne(w: int, h: int, x: int, y: int)
    requires w >= 2 && h >= 2 && 0 <= x < w && 0 <= y < h && !Covered(w, h, x, y)
    ensures var a, b := Blank(w, h), Dotted(w, h, x, y); SameShape(a, b) && a != b && SsimOf(a, b) == 1.0
  {
    var a, b := Blank(w, h), Dotted(w, h, x, y);
    OnlyTheDotDiffers(w, h, x, y, x, y);
    hide Pixel, SsimOf, Blank, Dotted, Covered;
    forall i, j | Covered(w, h, i, j)
      ensures Pixel(a, i, j) == Pixel(b, i, j)
    {
      CoveredIsInside(w, h, i, j);
      OnlyTheDotDiffers(w, h, x, y, i, j);
    }
    SsimIsOne(a, b);
  }

  lemma CoveredIsInside(w: int, h: int, x: int, y: int)
    requires w >= 2 && h >= 2 && Covered(w, h, x, y)
    ensures 0 <= x < w && 0 <= y < h
  {}

  /** For images of these sides a score of 1 means that they are identical, exactly when the stride
      fits along both sides. */
  lemma OneMeansIdentical(w: int, h: int)
    requires w >= 2 && h >= 2
    ensures (forall a, b :: SameShape(a, b) && a.width == w && a.height == h && SsimOf(a, b) == 1.0 ==> a == b) <==>
            StepsFit(w, WindowSize(w, h)) && StepsFit(h, WindowSize(w, h))
  {
    hide SsimOf, StepsFit, Pixel, Covered;
    WholeImageCounts(w, h);
    if x, y :| 0 <= x < w && 0 <= y < h && !Covered(w, h, x, y) {
      UncoveredDotScoresOne(w, h, x, y);
    } else {
      forall a, b | SameShape(a, b) && a.width == w && a.height == h && SsimOf(a, b) == 1.0
        ensures a == b
      {
        SsimIsOne(a, b);
        SamePixels(a, b);
      }
    }
  }

  /** The smallest case: the third column of a 3 by 2 image counts for nothing. */
  lemma ThirdColumnIsNotSeen()
    ensures var a, b := Blank(3, 2), Dotted(3, 2, 2, 0);
      Pixel(a, 2, 0) == 0.0 && Pixel(b, 2, 0) == 255.0 && SsimOf(a, b) == 1.0
  {
    assert !Covered(3, 2, 2, 0) by {
      assert forall i: nat :: !InStep(3, 2, 2, i);
    }
    hide SsimOf, Covered;
    UncoveredDotScoresOne(3, 2, 2, 0);
  }

  // ----- Crops -----

  // A rectangle in parts of the image's sides.
  datatype Rect = Rect(x: real, y: real, w: real, h: real)

  const FULL := Rect(0.0, 0.0, 1.0, 1.0)

  // To the nearest integer, halves away from zero.
  function Round(x: real): int { if x >= 0.0 then (x + 0.5).Floor else -((-x + 0.5).Floor) }

  function Clamp(x: int, low: int, high: int): (r: int)
    requires low <= high
    ensures low <= r <= high && (low <= x <= high ==> r == x)
  {
    if x < low then low else if x > high then high else x
  }

  // The first and last column, or row, of a crop.
  function Near(at: real, side: nat): (n: int)
    ensures 0 <= n <= side
  {
    Clamp(Round(at * side as real), 0, side)
  }

  function Far(at: real, extent: real, side: nat): (n: int)
    ensures Near(at, side) <= n <= side
  {
    Clamp(Round((at + extent) * side as real), Near(at, side), side)
  }

  // What a crop is to be: of the size of the rectangle, with the pixels that lie in it.
  ghost predicate IsCrop(img: GrayImage, r: Rect, out: GrayImage)
    requires Shaped(img)
  {
    var x0, y0 := Near(r.x, img.width), Near(r.y, img.height);
    && Shaped(out) && out.width == Far(r.x, r.w, img.width) - x0 && out.height == Far(r.y, r.h, img.height) - y0
    && forall x, y :: 0 <= x < out.width && 0 <= y < out.height ==> Pixel(out, x, y) == Pixel(img, x0 + x, y0 + y)
  }

  // One row of the copying loops.
  method CopyRow(px: array<real>, img: GrayImage, x0: int, y0: int, width: nat, y: nat, ghost start: nat)
    requires Shaped(img) && 0 <= x0 && x0 + width <= img.width && 0 <= y0 && y0 + y < img.height
    requires width > 0 && start == y * width && start + width <= px.Length
    requires px[..start] == Window(img, x0, y0, width, start)
    modifies px
    ensures px[..start + width] == Window(img, x0, y0, width, start + width)
  {
    hide Window, Pixel, Shaped;
    var x: nat := 0;
    while x < width
      invariant x <= width && px[..start + x] == Window(img, x0, y0, width, start + x)
    {
      var at, source := y * width + x, (y0 + y) * img.width + (x0 + x);
      SourcePixel(img, x0 + x, y0 + y, source);
      NextCopied(img, x0, y0, width, y, x, at);
      ghost var copied := px[..at];
      px[at] := img.px[source];
      assert px[..at + 1] == copied + [img.px[source]];
      x := x + 1;
    }
  }

  method CopyRect(img: GrayImage, x0: int, y0: int, width: nat, height: nat) returns (px: array<real>)
    requires Shaped(img) && 0 <= x0 && x0 + width <= img.width && 0 <= y0 && y0 + height <= img.height
    ensures fresh(px) && px.Length == width * height
    ensures width > 0 ==> px[..] == Window(img, x0, y0, width, width * height)
  {
    hide Window, Shaped;
    AreaIsNat(width, height);
    px := new real[width * height];
    if width == 0 {
      return;
    }
    var y: nat := 0;
    ghost var start: nat := 0;
    NoPixels(img, x0, y0, width);
    while y < height
      invariant y <= height && start == y * width && start <= px.Length
      invariant px[..start] == Window(img, x0, y0, width, start)
    {
      NextRow(y, width, start);
      RowsEnd(y + 1, height, width);
      CopyRow(px, img, x0, y0, width, y, start);
      y, start := y + 1, start + width;
    }
    assert px[..] == px[..px.Length];
  }

  method CropUv(img: GrayImage, r: Rect) returns (out: GrayImage)
    requires Shaped(img)
    ensures IsCrop(img, r, out)
  {
    hide *;
    HasSides(img);
    var x0, y0 := Near(r.x, img.width), Near(r.y, img.height);
    var x1, y1 := Far(r.x, r.w, img.width), Far(r.y, r.h, img.height);
    var px := CopyRect(img, x0, y0, x1 - x0, y1 - y0);
    out := GrayImage(px[..], x1 - x0, y1 - y0);
    IsShaped(out);
    CopiedIsCrop(img, r, out, x0, y0);
  }

  lemma HasSides(img: GrayImage)
    requires Shaped(img)
    ensures img.width >= 0 && img.height >= 0
  {}

  lemma IsShaped(img: GrayImage)
    requires img.width >= 0 && img.height >= 0 && |img.px| == img.width * img.height
    ensures Shaped(img)
  {}

  lemma NoPixels(img: GrayImage, x0: int, y0: int, width: nat)
    requires width > 0
    ensures Window(img, x0, y0, width, 0) == []
  {}

  lemma SourcePixel(img: GrayImage, x: int, y: int, i: int)
    requires Shaped(img) && 0 <= x < img.width && 0 <= y < img.height && i == y * img.width + x
    ensures 0 <= i < |img.px| && img.px[i] == Pixel(img, x, y)
  {
    InBounds(x, y, img.width, img.height, i);
  }

  lemma RowsEnd(y: nat, height: nat, width: nat)
    requires y <= height
    ensures y * width <= height * width
  {
    AreaIsNat(height - y, width);
  }

  // The next pixel copied is the next of the rectangle.
  lemma NextCopied(img: GrayImage, x0: int, y0: int, width: nat, y: nat, x: nat, k: nat)
    requires x < width && k == y * width + x
    ensures Window(img, x0, y0, width, k + 1) == Window(img, x0, y0, width, k) + [Pixel(img, x0 + x, y0 + y)]
  {
    RowAndColumn(y, x, width, k);
  }

  lemma CopiedIsCrop(img: GrayImage, r: Rect, out: GrayImage, x0: int, y0: int)
    requires Shaped(img) && Shaped(out) && x0 == Near(r.x, img.width) && y0 == Near(r.y, img.height)
    requires out.width == Far(r.x, r.w, img.width) - x0 && out.height == Far(r.y, r.h, img.height) - y0
    requires out.width > 0 ==> out.px == Window(img, x0, y0, out.width, out.width * out.height)
    ensures IsCrop(img, r, out)
  {
    hide Near, Far, Window;
    forall x, y | 0 <= x < out.width && 0 <= y < out.height
      ensures Pixel(out, x, y) == Pixel(img, x0 + x, y0 + y)
    {
      var k := y * out.width + x;
      InBounds(x, y, out.width, out.height, k);
      RowAndColumn(y, x, out.width, k);
      WindowAt(img, x0, y0, out.width, out.width * out.height, k);
    }
  }

  lemma AreaIsNat(w: int, h: int)
    requires w >= 0 && h >= 0
    ensures w * h >= 0
  {}

  // ----- What a crop is -----

  /** A rectangle has only one crop, and the full rectangle's is the image itself. */
  lemma CropIsUnique(img: GrayImage, r: Rect, a: GrayImage, b: GrayImage)
    requires Shaped(img) && IsCrop(img, r, a) && IsCrop(img, r, b)
    ensures a == b
    ensures r == FULL ==> a == img
  {
    hide Pixel;
    SamePixels(a, b);
    if r == FULL {
      FullRect(img.width);
      FullRect(img.height);
      SamePixels(a, img);
    }
  }

  lemma FullRect(side: nat)
    ensures Near(0.0, side) == 0 && Far(0.0, 1.0, side) == side
  {
    assert 0.0 * side as real == 0.0 && (0.0 + 1.0) * side as real == side as real;
    assert Round(side as real) == side;
  }

  // ----- The verdict against a golden image -----

  datatype Region = Region(name: string, rect: Rect, threshold: Option<real>)

  datatype RegionScore = RegionScore(name: string, score: real, threshold: real, passed: bool)

  datatype GoldenError = NoGolden | DecodeFailed | ShapeMismatch

  datatype GoldenScore = GoldenScore(
    error: Option<GoldenError>, score: real, threshold: real, passed: bool, regions: seq<RegionScore>)

  const DEFAULT_THRESHOLD := 0.98

  // What the score of one region is to be.
  ghost predicate ScoresRegion(candidate: GrayImage, golden: GrayImage, r: Region, threshold: real, one: RegionScore)
    requires SameShape(candidate, golden)
  {
    && one.name == r.name && one.threshold == r.threshold.GetOr(threshold)
    && one.passed == (one.score >= one.threshold)
    && exists rc, rg :: IsCrop(candidate, r.rect, rc) && IsCrop(golden, r.rect, rg) && one.score == SsimOf(rc, rg)
  }

  // The overall score is the worst of the regions', and all of them must pass.
  ghost predicate IsVerdict(scores: seq<RegionScore>, score: real, passed: bool) {
    && (forall i :: 0 <= i < |scores| ==> score <= scores[i].score)
    && (exists i :: 0 <= i < |scores| && score == scores[i].score)
    && (passed <==> forall i :: 0 <= i < |scores| ==> scores[i].passed)
  }

  ghost predicate AllScored(candidate: GrayImage, golden: GrayImage, regions: seq<Region>, threshold: real,
                            scores: seq<RegionScore>)
    requires SameShape(candidate, golden)
  {
    |scores| == |regions| &&
    forall i :: 0 <= i < |regions| ==> ScoresRegion(candidate, golden, regions[i], threshold, scores[i])
  }

  lemma CropsHaveOneShape(a: GrayImage, b: GrayImage, r: Rect, ca: GrayImage, cb: GrayImage)
    requires SameShape(a, b) && IsCrop(a, r, ca) && IsCrop(b, r, cb)
    ensures SameShape(ca, cb)
  {
    hide Pixel, Near, Far;
  }

  method ScoreRegion(candidate: GrayImage, golden: GrayImage, r: Region, threshold: real) returns (one: RegionScore)
    requires SameShape(candidate, golden)
    ensures ScoresRegion(candidate, golden, r, threshold, one) && one.score <= 1.0
  {
    hide IsCrop, SsimOf;
    var rc := CropUv(candidate, r.rect);
    var rg := CropUv(golden, r.rect);
    CropsHaveOneShape(candidate, golden, r.rect, rc, rg);
    SsimBoundedAndSymmetric(rc, rg);
    var score := ComputeSsim(rc, rg);
    var regionThreshold := r.threshold.GetOr(threshold);
    return RegionScore(r.name, score, regionThreshold, score >= regionThreshold);
  }

  /** The score over regions is the true minimum of the regions' scores, although it starts from 1. */
  method ScoreRegions(candidate: GrayImage, golden: GrayImage, regions: seq<Region>, threshold: real)
    returns (scores: seq<RegionScore>, worst: real, allPassed: bool)
    requires SameShape(candidate, golden) && regions != []
    ensures AllScored(candidate, golden, regions, threshold, scores) && IsVerdict(scores, worst, allPassed)
  {
    hide ScoresRegion;
    scores, worst, allPassed := [], 1.0, true;
    for i := 0 to |regions|
      invariant AllScored(candidate, golden, regions[..i], threshold, scores)
      invariant if i == 0 then worst == 1.0 else IsVerdict(scores, worst, allPassed)
      invariant i == 0 ==> allPassed
    {
      var one := ScoreRegion(candidate, golden, regions[i], threshold);
      assert regions[..i + 1] == regions[..i] + [regions[i]];
      OneMoreRegion(scores, worst, allPassed, one);
      scores := scores + [one];
      worst := if one.score < worst then one.score else worst;
      allPassed := allPassed && one.passed;
    }
    assert regions[..|regions|] == regions;
  }

  lemma OneMoreRegion(scores: seq<RegionScore>, worst: real, allPassed: bool, one: RegionScore)
    requires one.score <= 1.0
    requires if scores == [] then worst == 1.0 && allPassed else IsVerdict(scores, worst, allPassed)
    ensures IsVerdict(scores + [one], if one.score < worst then one.score else worst, allPassed && one.passed)
  {
    var more := scores + [one];
    assert more[|scores|] == one;
    if scores != [] && worst <= one.score {
      var i :| 0 <= i < |scores| && worst == scores[i].score;
      assert more[i] == scores[i];
    }
    if forall i :: 0 <= i < |more| ==> more[i].passed {
      forall i | 0 <= i < |scores|
        ensures scores[i].passed
      {
        assert more[i] == scores[i];
      }
    }
  }

  method ScoreAgainstGolden(goldenExists: bool, candidate: Option<GrayImage>, golden: Option<GrayImage>,
                            threshold: Option<real>, regions: seq<Region>)
    returns (result: GoldenScore)
    requires candidate.Some? ==> Shaped(candidate.value)
    requires golden.Some? ==> Shaped(golden.value)
    ensures result.threshold == threshold.GetOr(DEFAULT_THRESHOLD)
    ensures result.error ==
            if !goldenExists then Some(NoGolden)
            else if candidate.None? || golden.None? then Some(DecodeFailed)
            else if !SameShape(candidate.value, golden.value) then Some(ShapeMismatch)
            else None
    ensures result.error.Some? ==> !result.passed && result.regions == []
    ensures result.error.None? && regions == [] ==>
              && result.score == SsimOf(candidate.value, golden.value)
              && result.passed == (result.score >= result.threshold) && result.regions == []
    ensures result.error.None? && regions != [] ==>
              && AllScored(candidate.value, golden.value, regions, result.threshold, result.regions)
              && IsVerdict(result.regions, result.score, result.passed)
  {
    hide SsimOf, AllScored, IsVerdict;
    result := GoldenScore(None, 0.0, threshold.GetOr(DEFAULT_THRESHOLD), false, []);
    if !goldenExists {
      return result.(error := Some(NoGolden));
    }
    if candidate.None? || golden.None? {
      return result.(error := Some(DecodeFailed));
    }
    if candidate.value.width != golden.value.width || candidate.value.height != golden.value.height {
      return result.(error := Some(ShapeMismatch));
    }
    if regions != [] {
      var scores, worst, allPassed := ScoreRegions(candidate.value, golden.value, regions, result.threshold);
      return result.(score := worst, passed := allPassed, regions := scores);
    }
    var score := ComputeSsim(candidate.value, golden.value);
    return result.(score := score, passed := score >= result.threshold);
  }
}
