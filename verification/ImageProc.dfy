/** Image resizing: fit and fill geometry, bilinear sampling and the centred crop, on RGBA grids
    with exact real arithmetic in place of float64. */
module ImageProc {
  import opened Outcomes
  import opened Content

  datatype RGBA = RGBA(r: Byte, g: Byte, b: Byte, a: Byte)

  datatype Mode = Lfit | Fill | Fixed

  /** A decoded image: its dimensions and the pixel at each point inside them. */
  datatype Image = Image(w: nat, h: nat, at: (int, int) --> RGBA) {
    ghost predicate Drawn() {
      forall x, y :: 0 <= x < w && 0 <= y < h ==> at.requires(x, y)
    }
  }

  datatype Size = Size(w: int, h: int)

  // ---- arithmetic ----

  /** Conversion of a float to int drops the fraction. */
  function Truncated(f: real): int {
    if f >= 0.0 then f.Floor else -((-f).Floor)
  }

  function Iround(f: real): int {
    Truncated(f + 0.5)
  }

  function Min(a: real, b: real): real {
    if a < b then a else b
  }

  function Max(a: real, b: real): real {
    if a > b then a else b
  }

  function Ratio(a: int, b: int): real
    requires b > 0
  {
    a as real / b as real
  }

  function Abs(a: int): nat {
    if a < 0 then -a else a
  }

  lemma Scaled(a: real, b: real, c: real)
    requires c >= 0.0
    ensures a <= b ==> a * c <= b * c
    ensures a < b && c > 0.0 ==> a * c < b * c
  {
    if a <= b {
      assert (b - a) * c >= 0.0;
    }
    if a < b && c > 0.0 {
      assert (b - a) * c > 0.0;
    }
  }

  lemma DivMul(a: real, d: real)
    requires d > 0.0
    ensures a / d * d == a
    ensures a >= 0.0 ==> a / d >= 0.0
  {
    if a / d < 0.0 {
      Scaled(a / d, 0.0, d);
    }
  }

  /** Rounding to the nearest integer does not cross an integer bound. */
  lemma RoundKeepsBound(x: real, n: nat)
    requires x >= 0.0
    ensures x <= n as real ==> Iround(x) <= n
    ensures x >= n as real ==> Iround(x) >= n
  {
  }

  lemma NonNegative(a: real, b: real)
    requires a >= 0.0 && b >= 0.0
    ensures a * b >= 0.0
  {
  }

  lemma Distributes(a: real, b: real, d: real)
    ensures (a - b) * d == a * d - b * d
  {
  }

  lemma IntProduct(a: int, b: int)
    ensures (a * b) as real == a as real * b as real
  {
  }

  /** A bound half above survives multiplication by a denominator. */
  lemma TimesDen(t: int, x: real, den: nat)
    ensures t as real <= x + 0.5 ==> (t * den) as real <= x * den as real + 0.5 * den as real
    ensures x <= t as real + 0.5 ==> x * den as real - 0.5 * den as real <= (t * den) as real
  {
    var a, d := t as real, den as real;
    IntProduct(t, den);
    Distributes(a, x, d);
    if a <= x + 0.5 {
      NonNegative(0.5 - (a - x), d);
      Distributes(0.5, a - x, d);
    }
    if x <= a + 0.5 {
      NonNegative(0.5 + (a - x), d);
      Distributes(0.5, x - a, d);
      Distributes(x, a, d);
    }
  }

  lemma HalfOff(k: int, den: nat)
    requires -0.5 * den as real <= k as real <= 0.5 * den as real
    ensures 2 * Abs(k) <= den
  {
  }

  /** A rounded quotient is within half a unit, by cross-multiplication. */
  lemma RoundedWithin(x: real, t: int, den: nat, prod: nat)
    requires x >= 0.0 && t == Iround(x) && x * den as real == prod as real
    ensures t >= 0 && 2 * Abs(t * den - prod) <= den
  {
    TimesDen(t, x, den);
    HalfOff(t * den - prod, den);
  }

  // ---- geometry ----

  /** One side scaled by a factor, rounded. */
  function Scale(n: int, s: real): int {
    Iround(n as real * s)
  }

  /** One side scaled by a/b, multiplied first, rounded. */
  function ScaleBy(n: int, a: int, b: int): int
    requires b > 0
  {
    Iround(n as real * a as real / b as real)
  }

  /** The largest size within w x h that keeps the aspect ratio; 0 leaves a side unconstrained. */
  function FitDims(sw: int, sh: int, w: int, h: int): Size
    requires sw > 0 && sh > 0
  {
    if w > 0 && h > 0 then
      var s := Min(Ratio(w, sw), Ratio(h, sh));
      Size(Scale(sw, s), Scale(sh, s))
    else if w > 0 then Size(w, ScaleBy(sh, w, sw))
    else if h > 0 then Size(ScaleBy(sw, h, sh), h)
    else Size(sw, sh)
  }

  function FillDims(sw: int, sh: int, w: int, h: int): Size
    requires sw > 0 && sh > 0
  {
    var s := Max(Ratio(w, sw), Ratio(h, sh));
    Size(Scale(sw, s), Scale(sh, s))
  }

  lemma RatioLaw(a: nat, b: nat)
    requires b > 0
    ensures Ratio(a, b) >= 0.0 && b as real * Ratio(a, b) == a as real
  {
    DivMul(a as real, b as real);
  }

  /** A side scaled to its target reaches it exactly. */
  lemma ScaleReaches(n: nat, w: nat)
    requires n > 0
    ensures Ratio(w, n) >= 0.0 && Scale(n, Ratio(w, n)) == w
  {
    RatioLaw(w, n);
    RoundKeepsBound(n as real * Ratio(w, n), w);
  }

  lemma Regroup(n: real, r: real, m: real, w: real)
    requires r * m == w && n >= 0.0 && r >= 0.0
    ensures n * r * m == n * w && n * r >= 0.0
  {
    assert n * r * m == n * (r * m);
  }

  /** The other side follows within half a unit, by cross-multiplication. */
  lemma ScaleFollows(n: nat, w: nat, m: nat)
    requires m > 0
    ensures Scale(n, Ratio(w, m)) >= 0 && 2 * Abs(Scale(n, Ratio(w, m)) * m - n * w) <= m
  {
    var r := Ratio(w, m);
    RatioLaw(w, m);
    Regroup(n as real, r, m as real, w as real);
    assert n as real * w as real == (n * w) as real;
    RoundedWithin(n as real * r, Scale(n, r), m, n * w);
  }

  lemma ScaleByFollows(n: nat, w: nat, m: nat)
    requires m > 0
    ensures ScaleBy(n, w, m) >= 0 && 2 * Abs(ScaleBy(n, w, m) * m - n * w) <= m
  {
    var p := n as real * w as real;
    assert p == (n * w) as real >= 0.0;
    DivMul(p, m as real);
    RoundedWithin(p / m as real, ScaleBy(n, w, m), m, n * w);
  }

  lemma ScaledInOrder(n: nat, r: real, q: real, h: nat)
    requires n as real * q == h as real && r >= 0.0
    ensures n as real * r >= 0.0
    ensures r <= q ==> n as real * r <= h as real
    ensures r >= q ==> n as real * r >= h as real
  {
    NonNegative(n as real, r);
    if r <= q {
      NonNegative(q - r, n as real);
      Distributes(q, r, n as real);
    } else {
      NonNegative(r - q, n as real);
      Distributes(r, q, n as real);
    }
  }

  /** Scaled by no more (no less) than what reaches the target, a side stays within (covers) it. */
  lemma ScaleCompares(n: nat, r: real, h: nat)
    requires n > 0 && r >= 0.0
    ensures r <= Ratio(h, n) ==> Scale(n, r) <= h
    ensures r >= Ratio(h, n) ==> Scale(n, r) >= h
  {
    RatioLaw(h, n);
    ScaledInOrder(n, r, Ratio(h, n), h);
    RoundKeepsBound(n as real * r, h);
  }

  /** The size `s` was reached along one side and the other one rounded. */
  predicate AspectKept(sw: int, sh: int, d: Size) {
    2 * Abs(d.w * sh - d.h * sw) <= if sw < sh then sh else sw
  }

  lemma AspectByWidth(sw: nat, sh: nat, w: nat, t: int)
    requires 2 * Abs(t * sw - sh * w) <= sw
    ensures AspectKept(sw, sh, Size(w, t))
  {
    assert sh * w == w * sh;
  }

  lemma AspectByHeight(sw: nat, sh: nat, t: int, h: nat)
    requires 2 * Abs(t * sh - sw * h) <= sh
    ensures AspectKept(sw, sh, Size(t, h))
  {
    assert sw * h == h * sw;
  }

  /** Fitting: inside the box with one side tight, and the aspect ratio kept to within half a
      pixel of the side that was rounded. */
  lemma FitStaysInside(sw: nat, sh: nat, w: nat, h: nat)
    requires sw > 0 && sh > 0 && w > 0 && h > 0
    ensures var d := FitDims(sw, sh, w, h);
      0 <= d.w <= w && 0 <= d.h <= h && (d.w == w || d.h == h) && AspectKept(sw, sh, d)
  {
    ScaleReaches(sw, w);
    ScaleReaches(sh, h);
    if Ratio(w, sw) < Ratio(h, sh) {
      ScaleFollows(sh, w, sw);
      ScaleCompares(sh, Ratio(w, sw), h);
      AspectByWidth(sw, sh, w, Scale(sh, Ratio(w, sw)));
    } else {
      ScaleFollows(sw, h, sh);
      ScaleCompares(sw, Ratio(h, sh), w);
      AspectByHeight(sw, sh, Scale(sw, Ratio(h, sh)), h);
    }
  }

  /** With one side given the other follows within half a pixel; with none nothing changes. */
  lemma FitOneSide(sw: nat, sh: nat, n: nat)
    requires sw > 0 && sh > 0 && n > 0
    ensures var d := FitDims(sw, sh, n, 0); d.w == n && d.h >= 0 && AspectKept(sw, sh, d)
    ensures var d := FitDims(sw, sh, 0, n); d.h == n && d.w >= 0 && AspectKept(sw, sh, d)
    ensures FitDims(sw, sh, 0, 0) == Size(sw, sh)
  {
    ScaleByFollows(sh, n, sw);
    AspectByWidth(sw, sh, n, ScaleBy(sh, n, sw));
    ScaleByFollows(sw, n, sh);
    AspectByHeight(sw, sh, ScaleBy(sw, n, sh), n);
  }

  /** Filling covers the box, with one side tight and the aspect ratio kept as in fitting. */
  lemma FillCovers(sw: nat, sh: nat, w: nat, h: nat)
    requires sw > 0 && sh > 0 && w > 0 && h > 0
    ensures var d := FillDims(sw, sh, w, h);
      d.w >= w && d.h >= h && (d.w == w || d.h == h) && AspectKept(sw, sh, d)
  {
    ScaleReaches(sw, w);
    ScaleReaches(sh, h);
    if Ratio(w, sw) > Ratio(h, sh) {
      ScaleFollows(sh, w, sw);
      ScaleCompares(sh, Ratio(w, sw), h);
      AspectByWidth(sw, sh, w, Scale(sh, Ratio(w, sw)));
    } else {
      ScaleFollows(sw, h, sh);
      ScaleCompares(sw, Ratio(h, sh), w);
      AspectByHeight(sw, sh, Scale(sw, Ratio(h, sh)), h);
    }
  }

  // ---- sampling ----

  /** The source coordinate of destination pixel `x`: pixel centres correspond. */
  function Coord(x: int, s: int, d: int): real
    requires d > 0
  {
    (x as real + 0.5) * s as real / d as real - 0.5
  }

  lemma CoordLaw(x: int, s: int, d: int)
    requires d > 0
    ensures (Coord(x, s, d) + 0.5) * d as real == (x as real + 0.5) * s as real
  {
    var p := (x as real + 0.5) * s as real;
    DivMul(p, d as real);
  }

  /** Source coordinates stay within half a pixel of the source, so a sample and its right
      neighbour are at most one pixel off the edge before clamping. */
  lemma CoordInRange(x: nat, s: nat, d: nat)
    requires x < d && s > 0
    ensures -0.5 < Coord(x, s, d) < s as real - 0.5
    ensures (Coord(x, s, d) + 0.5) * d as real == (x as real + 0.5) * s as real
    ensures -1 <= Coord(x, s, d).Floor <= s - 1
  {
    var u, v := x as real + 0.5, s as real;
    CoordLaw(x, s, d);
    Scaled(0.0, u, v);
    Scaled(u, d as real, v);
    QuotientBetween(Coord(x, s, d) + 0.5, d as real, v, u * v);
  }

  lemma QuotientBetween(q: real, e: real, v: real, p: real)
    requires e > 0.0 && 0.0 < p < e * v && q * e == p
    ensures 0.0 < q < v
  {
    Scaled(q, 0.0, e);
    Scaled(v, q, e);
  }

  /** At its own size every pixel samples itself. */
  lemma CoordAtOwnSize(x: nat, s: nat)
    requires s > 0
    ensures Coord(x, s, s) == x as real
  {
    var q, u := Coord(x, s, s) + 0.5, x as real + 0.5;
    CoordLaw(x, s, s);
    Scaled(q, u, s as real);
    Scaled(u, q, s as real);
  }

  function Clamp(x: int, n: int): (c: int)
    requires n > 0
    ensures 0 <= c < n && (0 <= x < n ==> c == x)
    ensures -1 <= x <= n ==> Abs(c - x) <= 1
  {
    if x < 0 then 0 else if x > n - 1 then n - 1 else x
  }

  /** The source pixel at or nearest to (x, y). */
  function Sample(src: Image, x: int, y: int): RGBA
    requires src.Drawn() && src.w > 0 && src.h > 0
  {
    src.at(Clamp(x, src.w), Clamp(y, src.h))
  }

  function Mean(a: real, b: real, t: real): real {
    a * (1.0 - t) + b * t
  }

  /** One channel, weighted over the four neighbours. */
  function Blend(c00: Byte, c10: Byte, c01: Byte, c11: Byte, tx: real, ty: real): real {
    var top := Mean(c00 as real, c10 as real, tx);
    var bot := Mean(c01 as real, c11 as real, tx);
    Mean(top, bot, ty)
  }

  function Lerp2(c00: Byte, c10: Byte, c01: Byte, c11: Byte, tx: real, ty: real): Byte {
    var v := Blend(c00, c10, c01, c11, tx, ty);
    var w := if v < 0.0 then 0.0 else if v > 255.0 then 255.0 else v;
    (w + 0.5).Floor as Byte
  }

  lemma MeanShifts(a: real, b: real, t: real, c: real)
    ensures Mean(a - c, b - c, t) == Mean(a, b, t) - c
    ensures Mean(c - a, c - b, t) == c - Mean(a, b, t)
  {
    var u := 1.0 - t;
    Distributes(a, c, u);
    Distributes(b, c, t);
    Distributes(c, a, u);
    Distributes(c, b, t);
    Distributes(1.0, t, c);
  }

  lemma MeanNonNegative(a: real, b: real, t: real)
    requires a >= 0.0 && b >= 0.0 && 0.0 <= t <= 1.0
    ensures Mean(a, b, t) >= 0.0
  {
    NonNegative(a, 1.0 - t);
    NonNegative(b, t);
  }

  /** A weighted mean lies between what it is the mean of. */
  lemma MeanBetween(a: real, b: real, t: real, lo: real, hi: real)
    requires lo <= a <= hi && lo <= b <= hi && 0.0 <= t <= 1.0
    ensures lo <= Mean(a, b, t) <= hi
  {
    MeanShifts(a, b, t, lo);
    MeanNonNegative(a - lo, b - lo, t);
    MeanShifts(a, b, t, hi);
    MeanNonNegative(hi - a, hi - b, t);
  }

  /** The clamp never bites: a blended channel lies between the four it is blended from, and
      so does its rounding. */
  lemma LerpBetween(c00: Byte, c10: Byte, c01: Byte, c11: Byte, tx: real, ty: real, lo: Byte, hi: Byte)
    requires 0.0 <= tx <= 1.0 && 0.0 <= ty <= 1.0
    requires lo <= c00 <= hi && lo <= c10 <= hi && lo <= c01 <= hi && lo <= c11 <= hi
    ensures lo as real <= Blend(c00, c10, c01, c11, tx, ty) <= hi as real
    ensures lo <= Lerp2(c00, c10, c01, c11, tx, ty) <= hi
  {
    var l, h := lo as real, hi as real;
    MeanBetween(c00 as real, c10 as real, tx, l, h);
    MeanBetween(c01 as real, c11 as real, tx, l, h);
    MeanBetween(Mean(c00 as real, c10 as real, tx), Mean(c01 as real, c11 as real, tx), ty, l, h);
  }

  lemma Spread(a: real, b: real, d: real)
    ensures (a + b) * d == a * d + b * d
  {
  }

  /** The weight of each neighbour is the area of the opposite corner: one minus the distance to
      it along either axis. */
  function Weighted(c00: Byte, c10: Byte, c01: Byte, c11: Byte, tx: real, ty: real): real {
    c00 as real * (1.0 - tx) * (1.0 - ty) + c10 as real * tx * (1.0 - ty) + c01 as real * (1.0 - tx) * ty + c11 as real * tx * ty
  }

  /** Blending two rows blends all four neighbours by their weights. */
  lemma BlendWeighs(c00: Byte, c10: Byte, c01: Byte, c11: Byte, tx: real, ty: real)
    ensures Blend(c00, c10, c01, c11, tx, ty) == Weighted(c00, c10, c01, c11, tx, ty)
  {
    Spread(c00 as real * (1.0 - tx), c10 as real * tx, 1.0 - ty);
    Spread(c01 as real * (1.0 - tx), c11 as real * tx, ty);
  }

  /** A channel is the nearest integer to the weighted mean of its four neighbours, halves up. */
  lemma LerpWeighs(c00: Byte, c10: Byte, c01: Byte, c11: Byte, tx: real, ty: real)
    requires 0.0 <= tx <= 1.0 && 0.0 <= ty <= 1.0
    ensures var c := Lerp2(c00, c10, c01, c11, tx, ty) as real;
      c - 0.5 <= Weighted(c00, c10, c01, c11, tx, ty) < c + 0.5
  {
    LerpBetween(c00, c10, c01, c11, tx, ty, 0, 255);
    BlendWeighs(c00, c10, c01, c11, tx, ty);
  }

  /** On a neighbour it is that neighbour. */
  lemma LerpCorners(c00: Byte, c10: Byte, c01: Byte, c11: Byte)
    ensures Lerp2(c00, c10, c01, c11, 0.0, 0.0) == c00 && Lerp2(c00, c10, c01, c11, 1.0, 0.0) == c10
    ensures Lerp2(c00, c10, c01, c11, 0.0, 1.0) == c01 && Lerp2(c00, c10, c01, c11, 1.0, 1.0) == c11
  {
    LerpWeighs(c00, c10, c01, c11, 0.0, 0.0);
    LerpWeighs(c00, c10, c01, c11, 1.0, 0.0);
    LerpWeighs(c00, c10, c01, c11, 0.0, 1.0);
    LerpWeighs(c00, c10, c01, c11, 1.0, 1.0);
  }

  lemma MeanOfEqual(a: real, t: real)
    ensures Mean(a, a, t) == a
  {
    Spread(1.0 - t, t, a);
  }

  /** Where rows (columns) are alike the weight across them does not matter. */
  lemma LerpAcross(a: Byte, b: Byte, t: real, u: real, v: real)
    ensures Lerp2(a, b, a, b, t, u) == Lerp2(a, b, a, b, t, v)
    ensures Lerp2(a, a, b, b, u, t) == Lerp2(a, a, b, b, v, t)
  {
    MeanOfEqual(Mean(a as real, b as real, t), u);
    MeanOfEqual(Mean(a as real, b as real, t), v);
    MeanOfEqual(a as real, u);
    MeanOfEqual(b as real, u);
    MeanOfEqual(a as real, v);
    MeanOfEqual(b as real, v);
  }

  lemma LerpAtPixel(c00: Byte, c10: Byte, c01: Byte, c11: Byte)
    ensures Lerp2(c00, c10, c01, c11, 0.0, 0.0) == c00
  {
    assert Blend(c00, c10, c01, c11, 0.0, 0.0) == c00 as real;
  }

  /** The pixel between (x0, y0) and its right and lower neighbours. */
  function Mixed(src: Image, x0: int, y0: int, tx: real, ty: real): RGBA
    requires src.Drawn() && src.w > 0 && src.h > 0
  {
    var c00, c10 := Sample(src, x0, y0), Sample(src, x0 + 1, y0);
    var c01, c11 := Sample(src, x0, y0 + 1), Sample(src, x0 + 1, y0 + 1);
    RGBA(Lerp2(c00.r, c10.r, c01.r, c11.r, tx, ty), Lerp2(c00.g, c10.g, c01.g, c11.g, tx, ty),
         Lerp2(c00.b, c10.b, c01.b, c11.b, tx, ty), Lerp2(c00.a, c10.a, c01.a, c11.a, tx, ty))
  }

  /** The pixel of the source at real coordinates. */
  function PixelAt(src: Image, fx: real, fy: real): RGBA
    requires src.Drawn() && src.w > 0 && src.h > 0
  {
    Mixed(src, fx.Floor, fy.Floor, fx - fx.Floor as real, fy - fy.Floor as real)
  }

  /** Destination pixel (x, y) of a dw x dh rendering. */
  function Resampled(src: Image, dw: int, dh: int, x: int, y: int): RGBA
    requires src.Drawn() && src.w > 0 && src.h > 0 && dw > 0 && dh > 0
  {
    PixelAt(src, Coord(x, src.w, dw), Coord(y, src.h, dh))
  }

  predicate Within(p: RGBA, lo: RGBA, hi: RGBA) {
    lo.r <= p.r <= hi.r && lo.g <= p.g <= hi.g && lo.b <= p.b <= hi.b && lo.a <= p.a <= hi.a
  }

  /** Resampling invents no colour: whatever range each channel has over the source, it keeps. */
  lemma ResampledWithin(src: Image, dw: nat, dh: nat, x: nat, y: nat, lo: RGBA, hi: RGBA)
    requires src.Drawn() && src.w > 0 && src.h > 0 && x < dw && y < dh
    requires forall i, j :: 0 <= i < src.w && 0 <= j < src.h ==> Within(src.at(i, j), lo, hi)
    ensures Within(Resampled(src, dw, dh, x, y), lo, hi)
  {
    var fx, fy := Coord(x, src.w, dw), Coord(y, src.h, dh);
    var x0, y0 := fx.Floor, fy.Floor;
    var tx, ty := fx - x0 as real, fy - y0 as real;
    var c00, c10 := Sample(src, x0, y0), Sample(src, x0 + 1, y0);
    var c01, c11 := Sample(src, x0, y0 + 1), Sample(src, x0 + 1, y0 + 1);
    LerpBetween(c00.r, c10.r, c01.r, c11.r, tx, ty, lo.r, hi.r);
    LerpBetween(c00.g, c10.g, c01.g, c11.g, tx, ty, lo.g, hi.g);
    LerpBetween(c00.b, c10.b, c01.b, c11.b, tx, ty, lo.b, hi.b);
    LerpBetween(c00.a, c10.a, c01.a, c11.a, tx, ty, lo.a, hi.a);
  }

  /** `c` is the nearest integer to `v`, halves up. */
  predicate Nearest(c: Byte, v: real) {
    c as real - 0.5 <= v < c as real + 0.5
  }

  /** Each channel of `p` is that of its neighbours, weighted. */
  predicate Weighs(p: RGBA, c00: RGBA, c10: RGBA, c01: RGBA, c11: RGBA, tx: real, ty: real) {
    && Nearest(p.r, Weighted(c00.r, c10.r, c01.r, c11.r, tx, ty)) && Nearest(p.g, Weighted(c00.g, c10.g, c01.g, c11.g, tx, ty))
    && Nearest(p.b, Weighted(c00.b, c10.b, c01.b, c11.b, tx, ty)) && Nearest(p.a, Weighted(c00.a, c10.a, c01.a, c11.a, tx, ty))
  }

  lemma MixedWeighs(src: Image, x0: int, y0: int, tx: real, ty: real)
    requires src.Drawn() && src.w > 0 && src.h > 0 && 0.0 <= tx <= 1.0 && 0.0 <= ty <= 1.0
    ensures Weighs(Mixed(src, x0, y0, tx, ty), Sample(src, x0, y0), Sample(src, x0 + 1, y0),
                   Sample(src, x0, y0 + 1), Sample(src, x0 + 1, y0 + 1), tx, ty)
  {
    var c00, c10 := Sample(src, x0, y0), Sample(src, x0 + 1, y0);
    var c01, c11 := Sample(src, x0, y0 + 1), Sample(src, x0 + 1, y0 + 1);
    LerpWeighs(c00.r, c10.r, c01.r, c11.r, tx, ty);
    LerpWeighs(c00.g, c10.g, c01.g, c11.g, tx, ty);
    LerpWeighs(c00.b, c10.b, c01.b, c11.b, tx, ty);
    LerpWeighs(c00.a, c10.a, c01.a, c11.a, tx, ty);
  }

  /** The coordinate at which pixel centres correspond is the one sampled. */
  lemma CoordUnique(x: int, s: int, d: int, f: real)
    requires d > 0 && (f + 0.5) * d as real == (x as real + 0.5) * s as real
    ensures Coord(x, s, d) == f
  {
    CoordLaw(x, s, d);
    Scaled(Coord(x, s, d) + 0.5, f + 0.5, d as real);
    Scaled(f + 0.5, Coord(x, s, d) + 0.5, d as real);
  }

  /** A rendered pixel is the weighted mean of the four source pixels around the point its centre
      falls on, the nearer weighing more; beyond the edge the edge is repeated. */
  lemma ResampledWeighs(src: Image, dw: int, dh: int, x: int, y: int, fx: real, fy: real)
    requires src.Drawn() && src.w > 0 && src.h > 0 && dw > 0 && dh > 0
    requires (fx + 0.5) * dw as real == (x as real + 0.5) * src.w as real
    requires (fy + 0.5) * dh as real == (y as real + 0.5) * src.h as real
    ensures var x0, y0 := fx.Floor, fy.Floor;
      Weighs(Resampled(src, dw, dh, x, y), Sample(src, x0, y0), Sample(src, x0 + 1, y0),
             Sample(src, x0, y0 + 1), Sample(src, x0 + 1, y0 + 1), fx - x0 as real, fy - y0 as real)
  {
    CoordUnique(x, src.w, dw, fx);
    CoordUnique(y, src.h, dh, fy);
    MixedWeighs(src, fx.Floor, fy.Floor, fx - fx.Floor as real, fy - fy.Floor as real);
  }

  lemma MixedAcross(src: Image, x0: int, y0: int, y1: int, t: real, u: real, v: real)
    requires src.Drawn() && src.w > 0 && src.h > 0
    requires forall i, j, k :: 0 <= i < src.w && 0 <= j < src.h && 0 <= k < src.h ==> src.at(i, j) == src.at(i, k)
    ensures Mixed(src, x0, y0, t, u) == Mixed(src, x0, y1, t, v)
  {
    var a, b := Sample(src, x0, y0), Sample(src, x0 + 1, y0);
    LerpAcross(a.r, b.r, t, u, v);
    LerpAcross(a.g, b.g, t, u, v);
    LerpAcross(a.b, b.b, t, u, v);
    LerpAcross(a.a, b.a, t, u, v);
  }

  lemma MixedDown(src: Image, x0: int, x1: int, y0: int, t: real, u: real, v: real)
    requires src.Drawn() && src.w > 0 && src.h > 0
    requires forall i, j, k :: 0 <= i < src.w && 0 <= j < src.h && 0 <= k < src.w ==> src.at(i, j) == src.at(k, j)
    ensures Mixed(src, x0, y0, u, t) == Mixed(src, x1, y0, v, t)
  {
    var a, b := Sample(src, x0, y0), Sample(src, x0, y0 + 1);
    LerpAcross(a.r, b.r, t, u, v);
    LerpAcross(a.g, b.g, t, u, v);
    LerpAcross(a.b, b.b, t, u, v);
    LerpAcross(a.a, b.a, t, u, v);
  }

  /** A source whose rows are all alike renders rows that are all alike, and so for columns. */
  lemma AlikeStaysAlike(src: Image, dw: int, dh: int, x: int, y: int, x': int, y': int)
    requires src.Drawn() && src.w > 0 && src.h > 0 && dw > 0 && dh > 0
    ensures (forall i, j, k :: 0 <= i < src.w && 0 <= j < src.h && 0 <= k < src.h ==> src.at(i, j) == src.at(i, k)) ==>
              Resampled(src, dw, dh, x, y) == Resampled(src, dw, dh, x, y')
    ensures (forall i, j, k :: 0 <= i < src.w && 0 <= j < src.h && 0 <= k < src.w ==> src.at(i, j) == src.at(k, j)) ==>
              Resampled(src, dw, dh, x, y) == Resampled(src, dw, dh, x', y)
  {
    var fx, fy, gx, gy := Coord(x, src.w, dw), Coord(y, src.h, dh), Coord(x', src.w, dw), Coord(y', src.h, dh);
    if forall i, j, k :: 0 <= i < src.w && 0 <= j < src.h && 0 <= k < src.h ==> src.at(i, j) == src.at(i, k) {
      MixedAcross(src, fx.Floor, fy.Floor, gy.Floor, fx - fx.Floor as real, fy - fy.Floor as real, gy - gy.Floor as real);
    }
    if forall i, j, k :: 0 <= i < src.w && 0 <= j < src.h && 0 <= k < src.w ==> src.at(i, j) == src.at(k, j) {
      MixedDown(src, fx.Floor, gx.Floor, fy.Floor, fy - fy.Floor as real, fx - fx.Floor as real, gx - gx.Floor as real);
    }
  }

  /** Resizing to the source's own dimensions is the identity. */
  lemma ResampledIdentity(src: Image, x: nat, y: nat)
    requires src.Drawn() && x < src.w && y < src.h
    ensures Resampled(src, src.w, src.h, x, y) == src.at(x, y)
  {
    CoordAtOwnSize(x, src.w);
    CoordAtOwnSize(y, src.h);
    var c00, c10 := Sample(src, x, y), Sample(src, x + 1, y);
    var c01, c11 := Sample(src, x, y + 1), Sample(src, x + 1, y + 1);
    LerpAtPixel(c00.r, c10.r, c01.r, c11.r);
    LerpAtPixel(c00.g, c10.g, c01.g, c11.g);
    LerpAtPixel(c00.b, c10.b, c01.b, c11.b);
    LerpAtPixel(c00.a, c10.a, c01.a, c11.a);
  }

  function AtLeastOne(n: int): (m: nat)
    ensures m > 0 && (n > 0 ==> m == n) && (n <= 0 ==> m == 1)
  {
    if n < 1 then 1 else n
  }

  /** Resizes to dw x dh, but at least 1 x 1. */
  method Bilinear(src: Image, dw0: int, dh0: int) returns (dst: array2<RGBA>)
    requires src.Drawn() && src.w > 0 && src.h > 0
    ensures fresh(dst) && dst.Length0 == AtLeastOne(dw0) && dst.Length1 == AtLeastOne(dh0)
    ensures forall x, y :: 0 <= x < dst.Length0 && 0 <= y < dst.Length1 ==>
              dst[x, y] == Resampled(src, dst.Length0, dst.Length1, x, y)
  {
    var dw, dh := dw0, dh0;
    if dw < 1 {
      dw := 1;
    }
    if dh < 1 {
      dh := 1;
    }
    var sw, sh := src.w, src.h;
    dst := new RGBA[dw, dh]((i, j) => RGBA(0, 0, 0, 0));
    for y := 0 to dh
      invariant forall i, j :: 0 <= i < dw && 0 <= j < y ==> dst[i, j] == Resampled(src, dw, dh, i, j)
    {
      var fy := Coord(y, sh, dh);
      var y0 := fy.Floor;
      var ty := fy - y0 as real;
      for x := 0 to dw
        invariant forall i, j :: 0 <= i < dw && 0 <= j < y ==> dst[i, j] == Resampled(src, dw, dh, i, j)
        invariant forall i :: 0 <= i < x ==> dst[i, y] == Resampled(src, dw, dh, i, y)
      {
        var fx := Coord(x, sw, dw);
        var x0 := fx.Floor;
        var tx := fx - x0 as real;
        dst[x, y] := Mixed(src, x0, y0, tx, ty);
        assert dst[x, y] == Resampled(src, dw, dh, x, y);
      }
    }
  }

  /** The centred w x h part of an image that covers it. */
  method CropCenter(img: array2<RGBA>, w: nat, h: nat) returns (dst: array2<RGBA>)
    requires w <= img.Length0 && h <= img.Length1
    ensures fresh(dst) && dst.Length0 == w && dst.Length1 == h
    ensures var left, above := (img.Length0 - w) / 2, (img.Length1 - h) / 2;
      && 0 <= left && left + w <= img.Length0 && Abs(img.Length0 - w - 2 * left) <= 1
      && 0 <= above && above + h <= img.Length1 && Abs(img.Length1 - h - 2 * above) <= 1
      && forall x, y :: 0 <= x < w && 0 <= y < h ==> dst[x, y] == img[left + x, above + y]
  {
    var left, above := (img.Length0 - w) / 2, (img.Length1 - h) / 2;
    dst := new RGBA[w, h]((x, y) requires 0 <= x < w && 0 <= y < h && left + x < img.Length0 && above + y < img.Length1 reads img => img[left + x, above + y]);
  }

  /** `dst` is the w x h part, from (left, above), of the source resampled to size `d`. */
  ghost predicate Shows(src: Image, d: Size, left: int, above: int, dst: array2<RGBA>, w: int, h: int)
    requires src.Drawn() && src.w > 0 && src.h > 0
    reads dst
  {
    && dst.Length0 == w && dst.Length1 == h
    && 0 <= left && left + w <= AtLeastOne(d.w) && 0 <= above && above + h <= AtLeastOne(d.h)
    && forall x, y :: 0 <= x < w && 0 <= y < h ==>
         dst[x, y] == Resampled(src, AtLeastOne(d.w), AtLeastOne(d.h), left + x, above + y)
  }

  method Whole(src: Image, d: Size) returns (dst: array2<RGBA>)
    requires src.Drawn() && src.w > 0 && src.h > 0
    ensures fresh(dst) && Shows(src, d, 0, 0, dst, AtLeastOne(d.w), AtLeastOne(d.h))
  {
    dst := Bilinear(src, d.w, d.h);
  }

  /** The centre of a rendering that covers the box; the crop is never larger than asked. */
  method Centre(src: Image, d: Size, w: nat, h: nat) returns (dst: array2<RGBA>)
    requires src.Drawn() && src.w > 0 && src.h > 0 && d.w >= w > 0 && d.h >= h > 0
    ensures fresh(dst) && Shows(src, d, (d.w - w) / 2, (d.h - h) / 2, dst, w, h)
  {
    var resized := Bilinear(src, d.w, d.h);
    var cw := if w < resized.Length0 then w else resized.Length0;
    var ch := if h < resized.Length1 then h else resized.Length1;
    dst := CropCenter(resized, cw, ch);
    forall x, y | 0 <= x < w && 0 <= y < h
      ensures dst[x, y] == Resampled(src, d.w, d.h, (d.w - w) / 2 + x, (d.h - h) / 2 + y)
    {
      assert dst[x, y] == resized[(d.w - w) / 2 + x, (d.h - h) / 2 + y];
    }
  }

  /** Resizes a decoded image as asked.  An empty image is returned as it is; the box is filled
      and cropped, or reached exactly, when both sides are given; otherwise the image is fitted. */
  method Transform(src: Image, w: int, h: int, mode: Mode) returns (dst: Option<array2<RGBA>>)
    requires src.Drawn()
    ensures dst.None? <==> src.w == 0 || src.h == 0
    ensures dst.Some? && mode.Fill? && w > 0 && h > 0 ==>
              var d := FillDims(src.w, src.h, w, h);
              Shows(src, d, (d.w - w) / 2, (d.h - h) / 2, dst.value, w, h)
    ensures dst.Some? && mode.Fixed? && w > 0 && h > 0 ==> Shows(src, Size(w, h), 0, 0, dst.value, w, h)
    ensures dst.Some? && (mode.Lfit? || w <= 0 || h <= 0) ==>
              var d := FitDims(src.w, src.h, w, h);
              Shows(src, d, 0, 0, dst.value, AtLeastOne(d.w), AtLeastOne(d.h))
  {
    var sw, sh := src.w, src.h;
    if sw == 0 || sh == 0 {
      return None;
    }
    if mode.Fill? && w > 0 && h > 0 {
      FillCovers(sw, sh, w, h);
      var r := Centre(src, FillDims(sw, sh, w, h), w, h);
      return Some(r);
    }
    if mode.Fixed? && w > 0 && h > 0 {
      var r := Whole(src, Size(w, h));
      return Some(r);
    }
    var r := Whole(src, FitDims(sw, sh, w, h));
    return Some(r);
  }
}
