/** Clamping a bounding box to an image and enlarging it to the minimum size, over the real numbers. */
module BoundingBox {
  import opened Options

  const MIN_DIMENSION := 28

  datatype Box = Box(left: real, top: real, right: real, bottom: real) {
    function Width(): real { right - left }
    function Height(): real { bottom - top }

    /** The box with its axes exchanged. */
    function Flip(): Box { Box(top, left, bottom, right) }

    predicate Wide() { Width() >= Height() }
  }

  function Max(a: real, b: real): real { if a > b then a else b }
  function Min(a: real, b: real): real { if a < b then a else b }
  function Ceil(x: real): int { -(-x).Floor }

  function Clamped(b: Box, imageWidth: int, imageHeight: int): Box {
    Box(Max(0.0, b.left), Max(0.0, b.top), Min(imageWidth as real, b.right), Min(imageHeight as real, b.bottom))
  }

  predicate Covers(b: Box, x: real, y: real) {
    b.left <= x <= b.right && b.top <= y <= b.bottom
  }

  /** The clamped box is what the box and the image have in common; its sides are sides of either. */
  lemma ClampedIsIntersection(b: Box, imageWidth: int, imageHeight: int, x: real, y: real)
    ensures Covers(Clamped(b, imageWidth, imageHeight), x, y)
       <==> Covers(b, x, y) && Covers(Box(0.0, 0.0, imageWidth as real, imageHeight as real), x, y)
    ensures var c := Clamped(b, imageWidth, imageHeight);
      && Inside(c, imageWidth, imageHeight) && Contains(b, c)
      && (c.left == b.left || c.left == 0.0) && (c.right == b.right || c.right == imageWidth as real)
      && (c.top == b.top || c.top == 0.0) && (c.bottom == b.bottom || c.bottom == imageHeight as real)
  {
  }

  /** Not empty, and at most a hundred times as long as wide. */
  predicate Validate(b: Box) {
    && b.left < b.right && b.top < b.bottom
    && Max(b.Height(), b.Width()) / Min(b.Height(), b.Width()) <= 100.0
  }

  predicate Inside(b: Box, imageWidth: int, imageHeight: int) {
    0.0 <= b.left && 0.0 <= b.top && b.right <= imageWidth as real && b.bottom <= imageHeight as real
  }

  predicate Contains(outer: Box, inner: Box) {
    outer.left <= inner.left && outer.top <= inner.top && inner.right <= outer.right && inner.bottom <= outer.bottom
  }

  predicate BigEnough(b: Box) {
    && b.right.Floor - b.left.Floor >= MIN_DIMENSION
    && b.bottom.Floor - b.top.Floor >= MIN_DIMENSION
  }

  /** The smallest box with integer corners around b. */
  function Rounded(b: Box): Box {
    Box(b.left.Floor as real, b.top.Floor as real, Ceil(b.right) as real, Ceil(b.bottom) as real)
  }

  // ---------------------------------------------------------------- the size to aim for

  /** The box's size times s: the shape is kept. */
  predicate ScaledBy(width: real, height: real, s: real, targetWidth: real, targetHeight: real) {
    targetWidth == width * s && targetHeight == height * s
  }

  lemma Product(a: real, b: real, c: real)
    ensures (a * b) * c == a * (b * c)
  {
  }

  lemma Cancel(l: real, y: real)
    requires y > 0.0
    ensures y * (l / y) == l
  {
  }

  lemma PositiveProduct(a: real, b: real)
    requires a > 0.0 && b > 0.0
    ensures a * b > 0.0
  {
  }

  lemma SameFactor(y: real, a: real, b: real)
    requires y > 0.0 && y * a == y * b
    ensures a == b
  {
  }

  /** Scaling y * s down to the limit scales both sides to the factor limit / y. */
  lemma ScaleToLimit(x: real, y: real, s: real, limit: real)
    requires y > 0.0 && s > 0.0
    ensures y * s > 0.0 && (x * s) * (limit / (y * s)) == x * (limit / y) && y * (limit / y) == limit
  {
    PositiveProduct(y, s);
    var z := limit / (y * s);
    Cancel(limit, y * s);
    Cancel(limit, y);
    Product(y, s, z);
    SameFactor(y, s * z, limit / y);
    Product(x, s, z);
  }

  lemma AtLeastOne(limit: real, y: real)
    requires y > 0.0 && limit >= y
    ensures limit / y >= 1.0
  {
    var q := limit / y;
    Cancel(limit, y);
    if q < 1.0 { Monotone(y, q, 1.0); }
  }

  lemma Monotone(y: real, a: real, b: real)
    requires y > 0.0 && a < b
    ensures y * a < y * b
  {
    PositiveProduct(y, b - a);
    assert y * (b - a) == y * b - y * a;
  }

  lemma MonotoneWeak(y: real, a: real, b: real)
    requires y > 0.0 && a <= b
    ensures y * a <= y * b
  {
    if a < b { Monotone(y, a, b); }
  }

  /** The factor that brings the shorter side to the minimum, unless the image is too small for that; then the
      largest factor that fits. */
  ghost predicate Target(width: real, height: real, imageWidth: real, imageHeight: real, s: real)
    requires width > 0.0 && height > 0.0
  {
    var full := MIN_DIMENSION as real / Min(height, width);
    && 1.0 <= s <= full && width * s <= imageWidth && height * s <= imageHeight
    && (s == full || width * s == imageWidth || height * s == imageHeight)
  }

  /** Scale both sides down if this one is longer than the image. */
  method FitSide(own: real, other: real, limit: real, targetOwn: real, targetOther: real, ghost s: real)
    returns (fitOwn: real, fitOther: real, ghost t: real)
    requires 0.0 < own <= limit && 0.0 < other && s >= 1.0 && ScaledBy(own, other, s, targetOwn, targetOther)
    ensures ScaledBy(own, other, t, fitOwn, fitOther) && 1.0 <= t <= s && own * t <= limit
    ensures t == s || own * t == limit
    ensures own <= fitOwn <= limit && other <= fitOther <= targetOther
  {
    fitOwn, fitOther, t := targetOwn, targetOther, s;
    if targetOwn > limit {
      ScaleToLimit(other, own, s, limit);
      AtLeastOne(limit, own);
      var scaleDown := limit / targetOwn;
      fitOwn := limit;
      fitOther := fitOther * scaleDown;
      t := limit / own;
      if t > s { Monotone(own, s, t); }
    }
    NeverShrinks(own, t);
    NeverShrinks(other, t);
    MonotoneWeak(other, t, s);
  }

  method TargetSize(width: real, height: real, imageWidth: real, imageHeight: real)
    returns (targetWidth: real, targetHeight: real, ghost s: real)
    requires 0.0 < width <= imageWidth && 0.0 < height <= imageHeight
    requires Min(height, width) < MIN_DIMENSION as real
    ensures ScaledBy(width, height, s, targetWidth, targetHeight) && Target(width, height, imageWidth, imageHeight, s)
    ensures width <= targetWidth <= imageWidth && height <= targetHeight <= imageHeight
  {
    var ratio := MIN_DIMENSION as real / Min(height, width);
    AtLeastOne(MIN_DIMENSION as real, Min(height, width));
    ghost var t;
    targetWidth, targetHeight, t := FitSide(width, height, imageWidth, width * ratio, height * ratio, ratio);
    targetHeight, targetWidth, s := FitSide(height, width, imageHeight, targetHeight, targetWidth, t);
    MonotoneWeak(width, s, t);
  }

  /** There is one such factor, so the target size is determined. */
  lemma TargetIsUnique(width: real, height: real, imageWidth: real, imageHeight: real, s: real, t: real)
    requires width > 0.0 && height > 0.0
    requires Target(width, height, imageWidth, imageHeight, s) && Target(width, height, imageWidth, imageHeight, t)
    ensures s == t
  {
    if s < t {
      Monotone(width, s, t);
      Monotone(height, s, t);
    } else if t < s {
      Monotone(width, t, s);
      Monotone(height, t, s);
    }
  }

  // ---------------------------------------------------------------- where to put it

  /** As near to the centre as the image allows. */
  ghost predicate Placed(center: real, size: real, limit: real, start: real) {
    && 0.0 <= start && start + size <= limit
    && (|| start == center - size / 2.0
        || (start == 0.0 && center - size / 2.0 < 0.0)
        || (start + size == limit && center + size / 2.0 > limit))
  }

  method Place(center: real, size: real, limit: real) returns (start: real)
    requires 0.0 <= size <= limit
    ensures Placed(center, size, limit, start)
  {
    start := center - size / 2.0;
    if start < 0.0 { start := 0.0; }
    if start + size > limit { start := limit - size; }
  }

  /** A larger interval placed around the centre of an interval of the image covers it. */
  lemma PlacedCovers(lo: real, hi: real, size: real, limit: real, start: real)
    requires 0.0 <= lo <= hi <= limit && hi - lo <= size && Placed((lo + hi) / 2.0, size, limit, start)
    ensures start <= lo && hi <= start + size
  {
  }

  // ---------------------------------------------------------------- rounding

  lemma RoundedAround(b: Box, imageWidth: int, imageHeight: int)
    requires Inside(b, imageWidth, imageHeight)
    ensures Inside(Rounded(b), imageWidth, imageHeight) && Contains(Rounded(b), b)
  {
    CeilAtMost(b.right, imageWidth);
    CeilAtMost(b.bottom, imageHeight);
  }

  lemma CeilAtMost(x: real, n: int)
    requires x <= n as real
    ensures Ceil(x) <= n && x <= Ceil(x) as real
  {
  }

  /** Two reals that are 28 apart have floors that are 28 apart. */
  lemma FloorGap(a: real, b: real, n: int)
    requires b - a >= n as real
    ensures b.Floor - a.Floor >= n
  {
  }

  // ---------------------------------------------------------------- the whole operation

  /** The enlarged box before rounding: scaled by s, and placed. */
  ghost predicate Enlarged(b: Box, imageWidth: int, imageHeight: int, s: real, e: Box)
    requires b.left < b.right && b.top < b.bottom
  {
    && Target(b.Width(), b.Height(), imageWidth as real, imageHeight as real, s)
    && ScaledBy(b.Width(), b.Height(), s, e.Width(), e.Height())
    && Placed((b.left + b.right) / 2.0, e.Width(), imageWidth as real, e.left)
    && Placed((b.top + b.bottom) / 2.0, e.Height(), imageHeight as real, e.top)
  }

  predicate TooSmall(b: Box) {
    b.Height() < MIN_DIMENSION as real || b.Width() < MIN_DIMENSION as real
  }

  method Enlarge(b: Box, imageWidth: int, imageHeight: int) returns (e: Box, ghost s: real)
    requires Inside(b, imageWidth, imageHeight) && b.left < b.right && b.top < b.bottom && TooSmall(b)
    ensures Enlarged(b, imageWidth, imageHeight, s, e)
    ensures Inside(e, imageWidth, imageHeight) && Contains(e, b) && s >= 1.0
  {
    var centerX, centerY := (b.left + b.right) / 2.0, (b.top + b.bottom) / 2.0;
    var targetWidth, targetHeight;
    targetWidth, targetHeight, s := TargetSize(b.Width(), b.Height(), imageWidth as real, imageHeight as real);
    var newLeft := Place(centerX, targetWidth, imageWidth as real);
    var newTop := Place(centerY, targetHeight, imageHeight as real);
    PlacedCovers(b.left, b.right, targetWidth, imageWidth as real, newLeft);
    PlacedCovers(b.top, b.bottom, targetHeight, imageHeight as real, newTop);
    e := Box(newLeft, newTop, newLeft + targetWidth, newTop + targetHeight);
    EnlargedFrom(b, imageWidth, imageHeight, s, newLeft, newTop, targetWidth, targetHeight);
  }

  lemma EnlargedFrom(b: Box, imageWidth: int, imageHeight: int, s: real, left: real, top: real, width: real,
                     height: real)
    requires b.left < b.right && b.top < b.bottom
    requires Target(b.Width(), b.Height(), imageWidth as real, imageHeight as real, s)
    requires ScaledBy(b.Width(), b.Height(), s, width, height)
    requires Placed((b.left + b.right) / 2.0, width, imageWidth as real, left)
    requires Placed((b.top + b.bottom) / 2.0, height, imageHeight as real, top)
    ensures Enlarged(b, imageWidth, imageHeight, s, Box(left, top, left + width, top + height))
  {
    SidesOf(left, top, width, height);
  }

  lemma SidesOf(left: real, top: real, width: real, height: real)
    ensures var e := Box(left, top, left + width, top + height); e.Width() == width && e.Height() == height
  {
  }

  lemma NeverShrinks(y: real, s: real)
    requires y > 0.0 && s >= 1.0
    ensures y * s >= y
  {
    MonotoneWeak(y, 1.0, s);
  }

  method MaybeResizeBbox(bbox: Box, imageWidth: int, imageHeight: int) returns (r: Option<Box>)
    ensures var c := Clamped(bbox, imageWidth, imageHeight); !Validate(c) ==> r == None
    ensures var c := Clamped(bbox, imageWidth, imageHeight);
      Validate(c) && c.Height() >= 28.0 && c.Width() >= 28.0 ==> r == Some(c)
    ensures var c := Clamped(bbox, imageWidth, imageHeight);
      Validate(c) && (c.Height() < 28.0 || c.Width() < 28.0) ==>
        exists s, e :: && Enlarged(c, imageWidth, imageHeight, s, e)
                       && r == if Fits(c, imageWidth, imageHeight, s, e) then Some(Rounded(e)) else None
    ensures r.Some? ==>
      && Inside(r.value, imageWidth, imageHeight) && Contains(r.value, Clamped(bbox, imageWidth, imageHeight))
      && BigEnough(r.value) && Validate(r.value)
  {
    var c := Clamped(bbox, imageWidth, imageHeight);
    if !Validate(c) { return None; }
    var current := c;
    if TooSmall(c) {
      var e, s := Enlarge(c, imageWidth, imageHeight);
      RoundedAround(e, imageWidth, imageHeight);
      AcceptedExactly(c, imageWidth, imageHeight, s, e);
      current := Rounded(e);
    } else {
      FloorGap(c.left, c.right, MIN_DIMENSION);
      FloorGap(c.top, c.bottom, MIN_DIMENSION);
    }
    if !Validate(current) { return None; }
    if !BigEnough(current) { return None; }
    return Some(current);
  }

  function Accepted(b: Box): Option<Box> {
    if Validate(b) && BigEnough(b) then Some(b) else None
  }

  /** The enlarged box is determined by the clamped box and the image. */
  lemma EnlargedIsUnique(b: Box, imageWidth: int, imageHeight: int, s: real, e: Box, s': real, e': Box)
    requires b.left < b.right && b.top < b.bottom
    requires Enlarged(b, imageWidth, imageHeight, s, e) && Enlarged(b, imageWidth, imageHeight, s', e')
    ensures e == e'
  {
    TargetIsUnique(b.Width(), b.Height(), imageWidth as real, imageHeight as real, s, s');
    PlaceIsUnique((b.left + b.right) / 2.0, e.Width(), imageWidth as real, e.left, e'.left);
    PlaceIsUnique((b.top + b.bottom) / 2.0, e.Height(), imageHeight as real, e.top, e'.top);
  }

  lemma PlaceIsUnique(center: real, size: real, limit: real, start: real, start': real)
    requires Placed(center, size, limit, start) && Placed(center, size, limit, start')
    ensures start == start'
  {
  }

  lemma RoundedSides(lo: real, hi: real)
    ensures hi - lo <= Ceil(hi) as real - lo.Floor as real < hi - lo + 2.0
    ensures (Ceil(hi) as real).Floor - (lo.Floor as real).Floor == Ceil(hi) - lo.Floor
    ensures hi - lo >= 28.0 ==> Ceil(hi) - lo.Floor >= 28
  {
  }

  // ---------------------------------------------------------------- exactly when the rounded box is accepted

  /** What a box at least as wide as high has to meet.  If it has grown to a height of 28, only a top on a
      whole pixel leaves it at 28 after rounding, and then its rounded width may be at most 2800.  If the image
      was too small for that, the image has to be 28 wide, and the height is made up by its rounding: the
      bottom lies behind the 27th pixel from the rounded top. */
  predicate WideFits(b: Box, imageWidth: int, s: real, e: Box)
    requires b.Height() > 0.0
  {
    if s == MIN_DIMENSION as real / b.Height()
    then !(e.top.Floor as real == e.top && Ceil(e.right) - e.left.Floor > 2800)
    else imageWidth >= MIN_DIMENSION && e.bottom > e.top.Floor as real + 27.0
  }

  predicate Fits(b: Box, imageWidth: int, imageHeight: int, s: real, e: Box)
    requires b.Height() > 0.0 && b.Width() > 0.0
  {
    if b.Wide() then WideFits(b, imageWidth, s, e) else WideFits(b.Flip(), imageHeight, s, e.Flip())
  }

  lemma RatioExactly(a: real, b: real, k: real)
    requires b > 0.0
    ensures a / b <= k <==> a <= b * k
  {
    var q := a / b;
    Cancel(a, b);
    if q > k { Monotone(b, k, q); } else { MonotoneWeak(b, q, k); }
  }

  lemma ValidExactly(b: Box)
    ensures Validate(b) <==> b.Width() > 0.0 && b.Height() > 0.0
                             && b.Width() <= b.Height() * 100.0 && b.Height() <= b.Width() * 100.0
  {
    if b.Width() > 0.0 && b.Height() > 0.0 {
      RatioExactly(Max(b.Height(), b.Width()), Min(b.Height(), b.Width()), 100.0);
    }
  }

  /** Scaling keeps the order of the sides and the bound on their ratio. */
  lemma ScaledSides(w: real, h: real, s: real, width: real, height: real)
    requires 0.0 < h <= w <= h * 100.0 && s > 0.0 && ScaledBy(w, h, s, width, height)
    ensures 0.0 < height <= width <= height * 100.0
  {
    PositiveProduct(h, s);
    MonotoneWeak(s, h, w);
    MonotoneWeak(s, w, h * 100.0);
    assert s * (h * 100.0) == (h * s) * 100.0;
  }

  lemma GrownFits(e: Box)
    requires e.Height() == 28.0 && 28.0 <= e.Width() <= 2800.0
    ensures Validate(Rounded(e)) && BigEnough(Rounded(e))
       <==> !(e.top.Floor as real == e.top && Ceil(e.right) - e.left.Floor > 2800)
  {
    RoundedSides(e.left, e.right);
    RoundedSides(e.top, e.bottom);
    ShortSide(e.top, e.bottom);
    SmallBox(Rounded(e));
  }

  /** A side of 28 is 28 long after rounding if it begins on a whole pixel, and 29 otherwise. */
  lemma ShortSide(lo: real, hi: real)
    requires hi - lo == 28.0
    ensures Ceil(hi) - lo.Floor == if lo.Floor as real == lo then 28 else 29
  {
  }

  lemma SmallBox(b: Box)
    requires 28.0 <= b.Width() < 2802.0 && 28.0 <= b.Height() <= 29.0
    ensures Validate(b) <==> b.Width() <= b.Height() * 100.0
  {
    ValidExactly(b);
  }

  /** The rounded height is at least 28 exactly if the bottom lies behind the 27th pixel. */
  lemma HighEnough(top: real, bottom: real)
    requires bottom - top < 28.0
    ensures Ceil(bottom) - top.Floor >= MIN_DIMENSION <==> bottom > top.Floor as real + 27.0
    ensures bottom - top <= (Ceil(bottom) - top.Floor) as real < 30.0
  {
  }

  /** The enlarged box is as wide as the image. */
  lemma FullWidthFits(e: Box, imageWidth: int)
    requires e.left == 0.0 && e.right == imageWidth as real
    requires 0.0 < e.Height() < 28.0 && e.Height() <= e.Width() <= e.Height() * 100.0
    ensures Validate(Rounded(e)) && BigEnough(Rounded(e))
       <==> imageWidth >= MIN_DIMENSION && e.bottom > e.top.Floor as real + 27.0
  {
    HighEnough(e.top, e.bottom);
    WholeEnds(imageWidth);
    FullWidthValid(imageWidth, e.top.Floor, Ceil(e.bottom), e.Height());
    assert Rounded(e) == Box(0.0, e.top.Floor as real, imageWidth as real, Ceil(e.bottom) as real);
  }

  lemma WholeEnds(n: int)
    ensures (0.0).Floor == 0 && (n as real).Floor == n && Ceil(n as real) == n
  {
  }

  lemma FullWidthValid(width: int, top: int, bottom: int, height: real)
    requires 0.0 < height < 28.0 && height <= width as real <= height * 100.0
    requires height <= (bottom - top) as real < 30.0
    ensures var r := Box(0.0, top as real, width as real, bottom as real);
            Validate(r) && BigEnough(r) <==> width >= MIN_DIMENSION && bottom - top >= MIN_DIMENSION
  {
    WholeEnds(width);
    WholeEnds(top);
    WholeEnds(bottom);
    ValidExactly(Box(0.0, top as real, width as real, bottom as real));
  }

  /** Either the shorter side grows to 28, or it stays below and some side fills the image. */
  lemma WideTarget(w: real, h: real, imageWidth: real, imageHeight: real, s: real, width: real, height: real)
    requires 0.0 < h <= w && Target(w, h, imageWidth, imageHeight, s) && ScaledBy(w, h, s, width, height)
    ensures if s == MIN_DIMENSION as real / h then height == 28.0
            else height < 28.0 && (width == imageWidth || height == imageHeight)
  {
    var full := 28.0 / h;
    Cancel(28.0, h);
    if s < full { Monotone(h, s, full); }
  }

  lemma WideExactly(b: Box, imageWidth: int, imageHeight: int, s: real, e: Box)
    requires Validate(b) && b.Wide() && Enlarged(b, imageWidth, imageHeight, s, e)
    ensures Validate(Rounded(e)) && BigEnough(Rounded(e)) <==> WideFits(b, imageWidth, s, e)
  {
    var w, h := b.Width(), b.Height();
    ValidExactly(b);
    ScaledSides(w, h, s, e.Width(), e.Height());
    WideTarget(w, h, imageWidth as real, imageHeight as real, s, e.Width(), e.Height());
    var grown := s == MIN_DIMENSION as real / h;
    WideCases(b, imageWidth, imageHeight, e, grown);
  }

  lemma WideCases(b: Box, imageWidth: int, imageHeight: int, e: Box, grown: bool)
    requires 0.0 < e.Height() <= e.Width() <= e.Height() * 100.0
    requires Placed((b.left + b.right) / 2.0, e.Width(), imageWidth as real, e.left)
    requires Placed((b.top + b.bottom) / 2.0, e.Height(), imageHeight as real, e.top)
    requires if grown then e.Height() == 28.0
             else e.Height() < 28.0 && (e.Width() == imageWidth as real || e.Height() == imageHeight as real)
    ensures Validate(Rounded(e)) && BigEnough(Rounded(e))
       <==> if grown then !(e.top.Floor as real == e.top && Ceil(e.right) - e.left.Floor > 2800)
            else imageWidth >= MIN_DIMENSION && e.bottom > e.top.Floor as real + 27.0
  {
    if grown {
      GrownFits(e);
    } else if e.Width() == imageWidth as real {
      FullWidthFits(e, imageWidth);
    } else {
      assert e.top == 0.0 && e.bottom == imageHeight as real;
    }
  }

  lemma FlipTarget(w: real, h: real, imageWidth: real, imageHeight: real, s: real)
    requires w > 0.0 && h > 0.0 && Target(w, h, imageWidth, imageHeight, s)
    ensures Target(h, w, imageHeight, imageWidth, s)
  {
    assert Min(h, w) == Min(w, h);
  }

  lemma FlipEnlarged(b: Box, imageWidth: int, imageHeight: int, s: real, e: Box)
    requires Validate(b) && Enlarged(b, imageWidth, imageHeight, s, e)
    ensures Validate(b.Flip()) && Enlarged(b.Flip(), imageHeight, imageWidth, s, e.Flip())
  {
    FlipValid(b);
    FlipTarget(b.Width(), b.Height(), imageWidth as real, imageHeight as real, s);
    FlipScaled(b, s, e);
  }

  lemma FlipScaled(b: Box, s: real, e: Box)
    requires ScaledBy(b.Width(), b.Height(), s, e.Width(), e.Height())
    ensures ScaledBy(b.Flip().Width(), b.Flip().Height(), s, e.Flip().Width(), e.Flip().Height())
  {
  }

  lemma FlipRounded(e: Box)
    ensures Validate(Rounded(e)) && BigEnough(Rounded(e))
        <==> Validate(Rounded(e.Flip())) && BigEnough(Rounded(e.Flip()))
  {
    assert Rounded(e.Flip()) == Rounded(e).Flip();
    FlipValid(Rounded(e));
  }

  lemma FlipValid(b: Box)
    ensures Validate(b) <==> Validate(b.Flip())
  {
    ValidExactly(b);
    ValidExactly(b.Flip());
  }

  /** Which enlarged boxes are accepted, wide and tall, grown to the minimum and limited by the image. */
  lemma AcceptedExactly(b: Box, imageWidth: int, imageHeight: int, s: real, e: Box)
    requires Validate(b) && Enlarged(b, imageWidth, imageHeight, s, e)
    ensures Accepted(Rounded(e)) == Some(Rounded(e))
       <==> Fits(b, imageWidth, imageHeight, s, e)
  {
    if b.Wide() {
      WideExactly(b, imageWidth, imageHeight, s, e);
    } else {
      FlipEnlarged(b, imageWidth, imageHeight, s, e);
      FlipRounded(e);
      WideExactly(b.Flip(), imageHeight, imageWidth, s, e.Flip());
    }
  }

  /** Near the limit of the aspect ratio rounding can push an acceptable box over it: this one is 100 by 1. */
  lemma RoundingCanReject(e: Box)
    requires e == Box(650.25, 37.0, 3450.25, 65.0)
    ensures var b := Box(2000.25, 50.5, 2100.25, 51.5);
      && Clamped(b, 10000, 100) == b && Validate(b) && Enlarged(b, 10000, 100, 28.0, e) && !Validate(Rounded(e))
  {
    assert Rounded(e) == Box(650.0, 37.0, 3451.0, 65.0);
  }

  /** A box of the image's width can still be accepted with a height of less than 28: rounding makes it up. */
  lemma RoundingCanAccept(b: Box)
    requires b == Box(0.0, 100.75, 40.0, 127.25)
    ensures Clamped(b, 40, 1000) == b && Validate(b) && b.Height() < 28.0
    ensures Enlarged(b, 40, 1000, 1.0, b) && Accepted(Rounded(b)) == Some(Box(0.0, 100.0, 40.0, 128.0))
  {
    FullWidthStays(b, 40, 1000);
    ValidExactly(b);
    assert Rounded(b) == Box(0.0, 100.0, 40.0, 128.0);
    ValidExactly(Rounded(b));
  }

  /** A box that fills the width of the image cannot grow. */
  lemma FullWidthStays(b: Box, imageWidth: int, imageHeight: int)
    requires b.left == 0.0 && b.right == imageWidth as real && imageWidth >= MIN_DIMENSION
    requires 0.0 <= b.top && b.bottom <= imageHeight as real && 0.0 < b.Height() < 28.0
    ensures Enlarged(b, imageWidth, imageHeight, 1.0, b)
  {
    AtLeastOne(28.0, b.Height());
    assert Target(b.Width(), b.Height(), imageWidth as real, imageHeight as real, 1.0);
  }
}
