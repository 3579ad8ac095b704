/** The size a governed image is rendered at (app/visual_assets.py, `derived_dimensions`). */
module ImageSizing {
  import opened Wrappers

  const MaxDimension := 4096
  const MaxPixels := 25_000_000
  const DefaultDimension := 1024
  const Invalid := "visual_asset_dimensions_invalid"

  datatype Size = Size(width: nat, height: nat) {
    predicate Positive() { width > 0 && height > 0 }
    predicate Fits() { 1 <= width <= MaxDimension && 1 <= height <= MaxDimension }

    /** `_validate_derived_pixel_bounds`. */
    predicate Safe() { Fits() && width * height <= MaxPixels }
  }

  datatype Request = Request(width: Option<int>, height: Option<int>) {
    predicate Valid() {
      && (width.Some? ==> 1 <= width.value <= MaxDimension)
      && (height.Some? ==> 1 <= height.value <= MaxDimension)
    }

    predicate Empty() { width.None? && height.None? }

    /** Nothing asked for is exceeded. */
    predicate Allows(s: Size) {
      && (width.Some? ==> s.width <= width.value)
      && (height.Some? ==> s.height <= height.value)
    }
  }

  /**
    Rounding and the square root. Nothing is assumed of rounding but that it keeps
    order and integers and errs by at most a half, so ties may go either way.
  */
  datatype Numbers = Numbers(round: real -> int, sqrt: real -> real) {
    ghost predicate Valid() {
      && (forall x, y | x <= y :: round(x) <= round(y))
      && (forall x: real | x == x.Floor as real :: round(x) == x.Floor)
      && (forall x :: -0.5 <= round(x) as real - x <= 0.5)
      && (forall x | x > 0.0 :: sqrt(x) > 0.0 && sqrt(x) * sqrt(x) == x)
    }

    /** One side, scaled: never below one pixel. */
    function Scaled(side: nat, scale: real): nat {
      var r := round(side as real * scale);
      if r < 1 then 1 else r
    }

    function ScaledSize(s: Size, scale: real): Size {
      Size(Scaled(s.width, scale), Scaled(s.height, scale))
    }
  }

  function Min(a: real, b: real): real {
    if a <= b then a else b
  }

  /** How much the request asks to scale; nothing asked for is no limit. */
  function RequestedScale(s: Size, request: Request): Option<real>
    requires s.Positive()
  {
    match (request.width, request.height)
    case (None, None) => None
    case (Some(w), None) => Some(w as real / s.width as real)
    case (None, Some(h)) => Some(h as real / s.height as real)
    case (Some(w), Some(h)) => Some(Min(w as real / s.width as real, h as real / s.height as real))
  }

  function Requested(m: Numbers, s: Size, request: Request, upscale: bool): (r: Size)
    requires s.Positive()
    ensures r.Positive()
  {
    match RequestedScale(s, request)
    case None => s
    case Some(scale) => m.ScaledSize(s, if upscale then scale else Min(1.0, scale))
  }

  function SideScale(side: real): real
    requires side > 0.0
  {
    MaxDimension as real / side
  }

  function RootScale(m: Numbers, w: real, h: real): real
    requires w > 0.0 && h > 0.0
  {
    m.sqrt(MaxPixels as real / (w * h))
  }

  function WidthScale(s: Size): real
    requires s.Positive()
  {
    SideScale(s.width as real)
  }

  function HeightScale(s: Size): real
    requires s.Positive()
  {
    SideScale(s.height as real)
  }

  function PixelScale(m: Numbers, s: Size): real
    requires s.Positive()
  {
    RootScale(m, s.width as real, s.height as real)
  }

  function LimitScale(m: Numbers, s: Size): real
    requires s.Positive()
  {
    Smallest(WidthScale(s), HeightScale(s), PixelScale(m, s))
  }

  function Smallest(a: real, b: real, pixelScale: real): real {
    Min(Min(1.0, a), Min(b, pixelScale))
  }

  function SourceSize(width: Option<nat>, height: Option<nat>): (s: Size)
    ensures s.Positive()
  {
    Size(OrDefault(width), OrDefault(height))
  }

  /** Python's `source or 1024`. */
  function OrDefault(side: Option<nat>): nat {
    if side.UnwrapOr(0) == 0 then DefaultDimension else side.value
  }

  function Limited(m: Numbers, s: Size): Size
    requires s.Positive()
  {
    m.ScaledSize(s, LimitScale(m, s))
  }

  function DerivedDimensions(m: Numbers, source: Size, request: Request, upscale: bool): Result<Size, string>
    requires source.Positive()
  {
    if !request.Valid() then Err(Invalid)
    else
      var result := Limited(m, Requested(m, source, request, upscale));
      if result.Safe() then Ok(result) else Err(Invalid)
  }

  // ---- scaling one side ----

  lemma ScaledAtMost(m: Numbers, side: nat, scale: real, most: int)
    requires m.Valid() && most >= 1 && side as real * scale <= most as real
    ensures m.Scaled(side, scale) <= most
  {
    var limit := most as real;
    assert limit.Floor == most && m.round(limit) == most;
  }

  lemma ScaledByOne(m: Numbers, side: nat)
    requires m.Valid() && side > 0
    ensures m.Scaled(side, 1.0) == side
  {
    assert side as real * 1.0 == side as real;
  }

  lemma ScaledDown(m: Numbers, side: nat, scale: real)
    requires m.Valid() && side > 0 && scale <= 1.0
    ensures m.Scaled(side, scale) <= side
  {
    Times(side as real, scale, 1.0);
    ScaledAtMost(m, side, scale, side);
  }

  lemma Times(x: real, a: real, b: real)
    requires x > 0.0 && a <= b
    ensures x * a <= x * b
  {
    assert x * (b - a) >= 0.0;
  }

  /** Scaling by at most `most / side` gives at most `most`. */
  lemma ScaledWithin(m: Numbers, side: nat, scale: real, most: int)
    requires m.Valid() && side > 0 && most >= 1 && scale <= most as real / side as real
    ensures m.Scaled(side, scale) <= most
  {
    Times(side as real, scale, most as real / side as real);
    assert side as real * (most as real / side as real) == most as real;
    ScaledAtMost(m, side, scale, most);
  }

  /** A scaled side is less than a pixel off. */
  lemma ScaledIsClose(m: Numbers, side: nat, scale: real)
    requires m.Valid() && side > 0 && scale > 0.0
    ensures -1.0 < m.Scaled(side, scale) as real - side as real * scale < 1.0
  {
    assert side as real * scale > 0.0;
  }

  // ---- the limits ----

  /** Because 4096 * 4096 < 25,000,000, the pixel limit never decides. */
  lemma PixelLimitNeverBinds(m: Numbers, s: Size)
    requires m.Valid() && s.Positive()
    ensures WidthScale(s) > 0.0 && HeightScale(s) > 0.0
    ensures WidthScale(s) < PixelScale(m, s) || HeightScale(s) < PixelScale(m, s)
  {
    QuotientIsPositive(MaxDimension as real, s.width as real);
    QuotientIsPositive(MaxDimension as real, s.height as real);
    RootIsAbove(m, s.width as real, s.height as real);
  }

  lemma RootIsAbove(m: Numbers, w: real, h: real)
    requires m.Valid() && w > 0.0 && h > 0.0
    ensures SideScale(w) < RootScale(m, w, h) || SideScale(h) < RootScale(m, w, h)
  {
    QuotientsMultiply(w, h);
    var x := MaxPixels as real / (w * h);
    RootSquared(m, x);
    SmallerThanRoot(MaxDimension as real / w, MaxDimension as real / h, m.sqrt(x));
  }

  lemma RootSquared(m: Numbers, x: real)
    requires m.Valid() && x > 0.0
    ensures m.sqrt(x) > 0.0 && m.sqrt(x) * m.sqrt(x) == x
  {}

  /** If a * b < p * p then a or b is below p. */
  lemma SmallerThanRoot(a: real, b: real, p: real)
    requires p > 0.0 && a * b < p * p
    ensures a < p || b < p
  {
    if a >= p && b >= p {
      RootTimes(a, b, p);
    }
  }

  lemma RootTimes(a: real, b: real, p: real)
    requires p > 0.0 && a >= p && b >= p
    ensures a * b >= p * p
  {
    assert (a - p) * b >= 0.0 && p * (b - p) >= 0.0;
    assert (a - p) * b + p * (b - p) == a * b - p * p;
  }

  lemma CancelRight(a: real, b: real, c: real)
    requires a * c < b * c && c > 0.0
    ensures a < b
  {
    assert (b - a) * c > 0.0;
  }

  lemma QuotientsMultiply(w: real, h: real)
    requires w > 0.0 && h > 0.0
    ensures w * h > 0.0 && MaxPixels as real / (w * h) > 0.0
    ensures (MaxDimension as real / w) * (MaxDimension as real / h) < MaxPixels as real / (w * h)
  {
    var a, b, n := MaxDimension as real / w, MaxDimension as real / h, w * h;
    assert n > 0.0;
    var q := MaxPixels as real / n;
    assert a * w == MaxDimension as real && b * h == MaxDimension as real && q * n == MaxPixels as real;
    Regroup(a, b, w, h);
    CancelRight(a * b, q, n);
    assert q > 0.0;
  }

  lemma Regroup(a: real, b: real, w: real, h: real)
    ensures (a * b) * (w * h) == (a * w) * (b * h)
  {}

  /** So only the two dimension limits count. */
  lemma LimitIsDimensions(m: Numbers, s: Size)
    requires m.Valid() && s.Positive()
    ensures LimitScale(m, s) == DimensionScale(s)
  {
    PixelLimitNeverBinds(m, s);
    MinDrops(WidthScale(s), HeightScale(s), PixelScale(m, s));
  }

  function DimensionScale(s: Size): real
    requires s.Positive()
  {
    SmallerOf(WidthScale(s), HeightScale(s))
  }

  function SmallerOf(a: real, b: real): real {
    Min(1.0, Min(a, b))
  }

  lemma MinDrops(a: real, b: real, p: real)
    requires a > 0.0 && b > 0.0 && (a < p || b < p)
    ensures Smallest(a, b, p) == SmallerOf(a, b)
  {}

  lemma LimitIsPositive(m: Numbers, s: Size)
    requires m.Valid() && s.Positive()
    ensures LimitScale(m, s) > 0.0
  {
    LimitIsDimensions(m, s);
    PixelLimitNeverBinds(m, s);
    MinIsPositive(WidthScale(s), HeightScale(s));
  }

  lemma MinIsPositive(a: real, b: real)
    requires a > 0.0 && b > 0.0
    ensures SmallerOf(a, b) > 0.0
  {}

  lemma QuotientIsPositive(a: real, b: real)
    requires a > 0.0 && b > 0.0
    ensures a / b > 0.0
  {}

  /** The limiting step gives a safe size, and makes nothing larger. */
  lemma LimitedIsSafe(m: Numbers, s: Size)
    requires m.Valid() && s.Positive()
    ensures Limited(m, s).Safe()
    ensures Limited(m, s).width <= s.width && Limited(m, s).height <= s.height
  {
    var scale := LimitScale(m, s);
    LimitIsDimensions(m, s);
    ScaledWithin(m, s.width, scale, MaxDimension);
    ScaledWithin(m, s.height, scale, MaxDimension);
    ScaledDown(m, s.width, scale);
    ScaledDown(m, s.height, scale);
    FittingIsSafe(Limited(m, s));
  }

  lemma FittingIsSafe(s: Size)
    requires s.Fits()
    ensures s.Safe()
  {
    assert (MaxDimension - s.width) * s.height >= 0 && MaxDimension * (MaxDimension - s.height) >= 0;
  }

  /** A size within the limits is left alone. */
  lemma FittingIsUnchanged(m: Numbers, s: Size)
    requires m.Valid() && s.Fits()
    ensures Limited(m, s) == s
  {
    LimitIsDimensions(m, s);
    AtLeastOne(MaxDimension as real, s.width as real);
    AtLeastOne(MaxDimension as real, s.height as real);
    ScaledByOne(m, s.width);
    ScaledByOne(m, s.height);
  }

  lemma AtLeastOne(a: real, b: real)
    requires 0.0 < b <= a
    ensures a / b >= 1.0
  {}

  // ---- the main results ----

  /** The request is not exceeded by the first step. */
  lemma RequestedWithin(m: Numbers, s: Size, request: Request, upscale: bool)
    requires m.Valid() && s.Positive() && request.Valid()
    ensures request.Allows(Requested(m, s, request, upscale))
    ensures !upscale ==>
              Requested(m, s, request, upscale).width <= s.width && Requested(m, s, request, upscale).height <= s.height
  {
    if !request.Empty() {
      var asked := RequestedScale(s, request).value;
      var scale := if upscale then asked else Min(1.0, asked);
      if request.width.Some? {
        ScaledWithin(m, s.width, scale, request.width.value);
      }
      if request.height.Some? {
        ScaledWithin(m, s.height, scale, request.height.value);
      }
      if !upscale {
        ScaledDown(m, s.width, scale);
        ScaledDown(m, s.height, scale);
      }
    }
  }

  /** Nothing asked for, or 1 to 4096 pixels. */
  ghost predicate IsSide(side: Option<int>) {
    side.Some? ==> 1 <= side.value <= 4096
  }

  /**
    For every positive source and every request in range there is a result: within
    4096 by 4096 and the pixel limit, never above what was asked for, and without
    upscaling never above the source. Out of range requests are the only error.
  */
  lemma AlwaysSafe(m: Numbers, source: Size, request: Request, upscale: bool)
    requires m.Valid() && source.Positive()
    ensures var r := DerivedDimensions(m, source, request, upscale);
            && (r.Ok? <==> IsSide(request.width) && IsSide(request.height))
            && (r.Err? ==> r.error == Invalid)
            && (r.Ok? ==> r.value.Safe() && request.Allows(r.value))
            && (r.Ok? && !upscale ==> r.value.width <= source.width && r.value.height <= source.height)
  {
    if request.Valid() {
      RequestedWithin(m, source, request, upscale);
      LimitedIsSafe(m, Requested(m, source, request, upscale));
    }
  }

  /** The same with sizes the source may not state: a missing or zero one counts as 1024. */
  lemma AnySourceIsSafe(m: Numbers, width: Option<nat>, height: Option<nat>, request: Request, upscale: bool)
    requires m.Valid()
    ensures var source := SourceSize(width, height);
            var r := DerivedDimensions(m, source, request, upscale);
            && (width.UnwrapOr(0) == 0 ==> source.width == 1024) && (height.UnwrapOr(0) == 0 ==> source.height == 1024)
            && (r.Ok? <==> request.Valid()) && (r.Ok? ==> r.value.Safe() && request.Allows(r.value))
  {
    AlwaysSafe(m, SourceSize(width, height), request, upscale);
  }

  /** Without upscaling, asking again for the same changes nothing. */
  lemma AgainIsTheSame(m: Numbers, source: Size, request: Request)
    requires m.Valid() && source.Positive() && request.Valid()
    ensures var r := DerivedDimensions(m, source, request, false);
            r.Ok? && r.value.Positive() && DerivedDimensions(m, r.value, request, false) == r
  {
    AlwaysSafe(m, source, request, false);
    var r := DerivedDimensions(m, source, request, false).value;
    AllowedIsUnchanged(m, r, request);
    FittingIsUnchanged(m, r);
  }

  /** A size that meets the request is left alone. */
  lemma AllowedIsUnchanged(m: Numbers, s: Size, request: Request)
    requires m.Valid() && s.Fits() && request.Valid() && request.Allows(s)
    ensures Requested(m, s, request, false) == s
  {
    if request.width.Some? {
      AtLeastOne(request.width.value as real, s.width as real);
    }
    if request.height.Some? {
      AtLeastOne(request.height.value as real, s.height as real);
    }
    ScaledByOne(m, s.width);
    ScaledByOne(m, s.height);
  }

  /** With no request the shape is kept: the ratio is off by less than a pixel of each side. */
  lemma ShapeIsKept(m: Numbers, source: Size, upscale: bool)
    requires m.Valid() && source.Positive()
    ensures var r := DerivedDimensions(m, source, Request(None, None), upscale);
            && r.Ok?
            && -(source.width + source.height) < r.value.width * source.height - r.value.height * source.width
            && r.value.width * source.height - r.value.height * source.width < source.width + source.height
  {
    AlwaysSafe(m, source, Request(None, None), upscale);
    LimitIsPositive(m, source);
    ScaledShape(m, source, LimitScale(m, source));
  }

  lemma ScaledShape(m: Numbers, s: Size, scale: real)
    requires m.Valid() && s.Positive() && scale > 0.0
    ensures var r := m.ScaledSize(s, scale);
            -(s.width + s.height) < r.width * s.height - r.height * s.width < s.width + s.height
  {
    hide Numbers.Scaled, Numbers.Valid;
    ScaledIsClose(m, s.width, scale);
    ScaledIsClose(m, s.height, scale);
    CrossDifference(s.width, s.height, scale, m.Scaled(s.width, scale), m.Scaled(s.height, scale));
  }

  lemma IntTimes(a: int, b: int)
    ensures (a * b) as real == a as real * b as real
  {}

  lemma CrossDifference(w: nat, h: nat, scale: real, w': nat, h': nat)
    requires w > 0 && h > 0
    requires -1.0 < w' as real - w as real * scale < 1.0 && -1.0 < h' as real - h as real * scale < 1.0
    ensures -(w + h) < w' * h - h' * w < w + h
  {
    CrossReal(w as real, h as real, scale, w' as real, h' as real);
    IntTimes(w', h);
    IntTimes(h', w);
    InIntegers(w' * h, h' * w, w + h);
  }

  lemma CrossReal(w: real, h: real, scale: real, w': real, h': real)
    requires w > 0.0 && h > 0.0
    requires -1.0 < w' - w * scale < 1.0 && -1.0 < h' - h * scale < 1.0
    ensures -(w + h) < w' * h - h' * w < w + h
  {
    var dw, dh := w' - w * scale, h' - h * scale;
    CrossSplit(w, h, scale, w', h', dw, dh);
    TimesBetween(dw, h);
    TimesBetween(dh, w);
    var x, y := dw * h, dh * w;
    assert -h < x < h && -w < y < w && w' * h - h' * w == x - y;
  }

  lemma CrossSplit(w: real, h: real, scale: real, w': real, h': real, dw: real, dh: real)
    requires w' == w * scale + dw && h' == h * scale + dh
    ensures w' * h - h' * w == dw * h - dh * w
  {
    TimesEqual(w', w * scale + dw, h);
    TimesEqual(h', h * scale + dh, w);
    Expand(w, h, scale, dw, dh);
  }

  lemma InIntegers(x: int, y: int, z: int)
    requires -(z as real) < x as real - y as real < z as real
    ensures -z < x - y < z
  {}

  lemma Expand(w: real, h: real, scale: real, dw: real, dh: real)
    ensures (w * scale + dw) * h - (h * scale + dh) * w == dw * h - dh * w
  {}

  lemma TimesEqual(a: real, b: real, x: real)
    requires a == b
    ensures a * x == b * x
  {}

  lemma TimesBetween(d: real, x: real)
    requires -1.0 < d < 1.0 && x > 0.0
    ensures -x < d * x < x
  {
    assert (1.0 - d) * x > 0.0 && (1.0 + d) * x > 0.0;
  }

  lemma ExactScale(m: Numbers, side: nat, wanted: int)
    requires m.Valid() && side > 0 && wanted >= 1
    ensures m.Scaled(side, wanted as real / side as real) == wanted
  {
    var exact := wanted as real;
    assert side as real * (exact / side as real) == exact;
    assert exact.Floor == wanted && m.round(exact) == wanted;
  }

  /**
    A request that does not need the image enlarged, or may, is used up: one of
    the requested sides is met exactly by the first step, and the shape is kept.
  */
  lemma RequestIsTight(m: Numbers, source: Size, request: Request, upscale: bool)
    requires m.Valid() && source.Positive() && request.Valid() && !request.Empty()
    requires upscale || RequestedScale(source, request).value <= 1.0
    ensures var s := Requested(m, source, request, upscale);
            && ((request.width.Some? && s.width == request.width.value)
                || (request.height.Some? && s.height == request.height.value))
            && -(source.width + source.height) < s.width * source.height - s.height * source.width
            && s.width * source.height - s.height * source.width < source.width + source.height
            && (s.Fits() ==> DerivedDimensions(m, source, request, upscale) == Ok(s))
  {
    var scale, s := RequestedScale(source, request).value, Requested(m, source, request, upscale);
    AlwaysSafe(m, source, request, upscale);
    assert s == m.ScaledSize(source, scale);
    AskedIsPositive(source, request);
    ScaledShape(m, source, scale);
    if request.width.Some? && scale == request.width.value as real / source.width as real {
      ExactScale(m, source.width, request.width.value);
    } else {
      ExactScale(m, source.height, request.height.value);
    }
    if s.Fits() {
      FittingIsUnchanged(m, s);
    }
  }

  lemma AskedIsPositive(s: Size, request: Request)
    requires s.Positive() && request.Valid() && !request.Empty()
    ensures RequestedScale(s, request).Some? && RequestedScale(s, request).value > 0.0
  {
    if request.width.Some? {
      QuotientIsPositive(request.width.value as real, s.width as real);
    }
    if request.height.Some? {
      QuotientIsPositive(request.height.value as real, s.height as real);
    }
  }

  // ---- nothing is made smaller than it has to be ----

  /** The quotient by the larger side is the smaller one. */
  lemma LargerSideDecides(larger: real, side: real)
    requires 0.0 < side <= larger
    ensures SideScale(larger) <= SideScale(side)
  {
    var a, b := SideScale(larger), SideScale(side);
    assert a * larger == MaxDimension as real && b * side == MaxDimension as real;
    if a > b {
      TimesBoth(b, a, side, larger);
    }
  }

  lemma TimesBoth(a: real, b: real, c: real, d: real)
    requires 0.0 < a < b && 0.0 < c <= d
    ensures a * c < b * d
  {
    assert a * c < b * c;
    assert b * c <= b * d;
  }

  lemma BelowOne(side: nat)
    requires side > MaxDimension
    ensures 0.0 < SideScale(side as real) < 1.0
  {}

  /** An image beyond the limits comes out with its larger side at 4096 pixels. */
  lemma LimitIsReached(m: Numbers, s: Size)
    requires m.Valid() && s.Positive() && !s.Fits()
    ensures if s.width >= s.height then Limited(m, s).width == 4096 else Limited(m, s).height == 4096
  {
    LimitIsDimensions(m, s);
    var larger, smaller := if s.width >= s.height then s.width else s.height,
                           if s.width >= s.height then s.height else s.width;
    LargerSideDecides(larger as real, smaller as real);
    BelowOne(larger);
    assert LimitScale(m, s) == SideScale(larger as real);
    ExactScale(m, larger, MaxDimension);
  }

  lemma ScaleOfOneAtLeast(wanted: real, side: real)
    requires side > 0.0
    ensures wanted / side >= 1.0 <==> wanted >= side
  {
    var q := wanted / side;
    assert q * side == wanted;
    if q >= 1.0 {
      assert (q - 1.0) * side >= 0.0;
    } else {
      assert (1.0 - q) * side > 0.0;
    }
  }

  /** Without upscaling a request that both sides already meet is no request. */
  lemma RequestForMoreIsIgnored(m: Numbers, source: Size, request: Request)
    requires m.Valid() && source.Positive() && request.Valid()
    requires request.width.Some? ==> source.width <= request.width.value
    requires request.height.Some? ==> source.height <= request.height.value
    ensures Requested(m, source, request, false) == source
    ensures DerivedDimensions(m, source, request, false) == DerivedDimensions(m, source, Request(None, None), false)
    ensures DerivedDimensions(m, source, request, false) == Ok(Limited(m, source))
  {
    if request.width.Some? {
      ScaleOfOneAtLeast(request.width.value as real, source.width as real);
    }
    if request.height.Some? {
      ScaleOfOneAtLeast(request.height.value as real, source.height as real);
    }
    ScaledByOne(m, source.width);
    ScaledByOne(m, source.height);
    LimitedIsSafe(m, source);
  }

  /** A source that does not state a side, or states zero, counts as 1024 there. */
  lemma UnstatedSides(width: Option<nat>, height: Option<nat>)
    ensures SourceSize(None, None) == SourceSize(Some(0), Some(0)) == Size(1024, 1024)
    ensures width.Some? && width.value > 0 ==> SourceSize(width, height).width == width.value
    ensures height.Some? && height.value > 0 ==> SourceSize(width, height).height == height.value
    ensures width.None? || width == Some(0) ==> SourceSize(width, height).width == 1024
    ensures height.None? || height == Some(0) ==> SourceSize(width, height).height == 1024
  {}

  /** The limits in numbers. */
  lemma SafeInNumbers(s: Size)
    ensures s.Safe() <==> 1 <= s.width <= 4096 && 1 <= s.height <= 4096
  {
    if s.Fits() {
      FittingIsSafe(s);
    }
  }
}
