/** From chip corners to the reference stars on a chip: corner boxes, the field box, the
    padded search region and the two-stage star filter.  Coordinates are reals. */
module SkyBoxes {
  import opened Wrappers

  datatype Pixel = Pixel(x: real, y: real)
  datatype Sky = Sky(r: real, d: real)
  datatype Rect = Rect(x0: real, x1: real, y0: real, y1: real)
  datatype Box = Box(rMin: real, rMax: real, dMin: real, dMax: real)

  /** A coordinate that is affine in x and in y separately. */
  datatype Surface = Surface(c: real, cx: real, cy: real, cxy: real)

  /** Where the sky position, in radians, of each pixel of a chip lies. */
  datatype Solution = Solution(r: Surface, d: Surface)

  function At(s: Surface, p: Pixel): real {
    s.c + s.cx * p.x + (s.cy + s.cxy * p.x) * p.y
  }

  function ToSky(w: Solution, p: Pixel): Sky {
    Sky(At(w.r, p), At(w.d, p))
  }

  predicate OnChip(c: Rect, p: Pixel) {
    c.x0 <= p.x <= c.x1 && c.y0 <= p.y <= c.y1
  }

  predicate Inside(b: Box, s: Sky) {
    b.rMin <= s.r <= b.rMax && b.dMin <= s.d <= b.dMax
  }

  predicate Covers(b: Box, a: Box) {
    b.rMin <= a.rMin && a.rMax <= b.rMax && b.dMin <= a.dMin && a.dMax <= b.dMax
  }

  /** How the code turns radians into the degrees it stores, and stored degrees into the
      radians it compares with: a multiplication each, rounded to a float.  Only that they
      never reverse an order matters here. */
  datatype Units = Units(deg: real -> real, rad: real -> real)

  ghost predicate Monotone(f: real -> real) {
    forall x, y {:trigger InOrder(x, y)} | InOrder(x, y) :: f(x) <= f(y)
  }

  predicate InOrder(x: real, y: real) {
    x <= y
  }

  function Degrees(u: Units, s: Sky): Sky {
    Sky(u.deg(s.r), u.deg(s.d))
  }

  /** The limits in radians that a stored box stands for. */
  function Limits(u: Units, stored: Box): Box {
    Box(u.rad(stored.rMin), u.rad(stored.rMax), u.rad(stored.dMin), u.rad(stored.dMax))
  }

  // ---------------------------------------------------------------- corners

  function Corner(c: Rect, i: int): Pixel {
    Pixel(if i == 1 || i == 2 then c.x1 else c.x0, if i == 2 || i == 3 then c.y1 else c.y0)
  }

  lemma Slope(b: real, x: real, y: real)
    requires x <= y
    ensures b >= 0.0 ==> b * x <= b * y
    ensures b <= 0.0 ==> b * x >= b * y
  {
    if b >= 0.0 {
      assert b * (y - x) >= 0.0;
    } else {
      assert b * (y - x) <= 0.0;
    }
  }

  lemma Straight(a: real, b: real, lo: real, x: real, hi: real)
    requires lo <= x <= hi
    ensures a + b * lo <= a + b * x <= a + b * hi || a + b * hi <= a + b * x <= a + b * lo
  {
    Slope(b, lo, x);
    Slope(b, x, hi);
  }

  /** Along a column the surface lies between its values at the ends. */
  lemma BetweenRows(s: Surface, c: Rect, p: Pixel)
    requires OnChip(c, p)
    ensures var lo, hi := Pixel(p.x, c.y0), Pixel(p.x, c.y1);
      || At(s, lo) <= At(s, p) <= At(s, hi) || At(s, hi) <= At(s, p) <= At(s, lo)
  {
    Straight(s.c + s.cx * p.x, s.cy + s.cxy * p.x, c.y0, p.y, c.y1);
  }

  lemma BetweenColumns(s: Surface, c: Rect, p: Pixel)
    requires OnChip(c, p)
    ensures var lo, hi := Pixel(c.x0, p.y), Pixel(c.x1, p.y);
      || At(s, lo) <= At(s, p) <= At(s, hi) || At(s, hi) <= At(s, p) <= At(s, lo)
  {
    ByColumn(s, p);
    ByColumn(s, Pixel(c.x0, p.y));
    ByColumn(s, Pixel(c.x1, p.y));
    Straight(s.c + s.cy * p.y, s.cx + s.cxy * p.y, c.x0, p.x, c.x1);
  }

  lemma ByColumn(s: Surface, p: Pixel)
    ensures At(s, p) == s.c + s.cy * p.y + (s.cx + s.cxy * p.y) * p.x
  {
    assert s.cxy * p.x * p.y == s.cxy * p.y * p.x;
  }

  /** On the whole chip the surface lies between its values at two corners. */
  lemma BetweenCorners(s: Surface, c: Rect, p: Pixel) returns (lo: int, hi: int)
    requires OnChip(c, p)
    ensures 0 <= lo < 4 && 0 <= hi < 4
    ensures At(s, Corner(c, lo)) <= At(s, p) <= At(s, Corner(c, hi))
  {
    BetweenRows(s, c, p);
    BetweenColumns(s, c, Pixel(p.x, c.y0));
    BetweenColumns(s, c, Pixel(p.x, c.y1));
    var below := if At(s, Corner(c, 0)) <= At(s, Corner(c, 1)) then 0 else 1;
    var above := if At(s, Corner(c, 3)) <= At(s, Corner(c, 2)) then 3 else 2;
    lo := if At(s, Corner(c, below)) <= At(s, Corner(c, above)) then below else above;
    below := if At(s, Corner(c, 0)) >= At(s, Corner(c, 1)) then 0 else 1;
    above := if At(s, Corner(c, 3)) >= At(s, Corner(c, 2)) then 3 else 2;
    hi := if At(s, Corner(c, below)) >= At(s, Corner(c, above)) then below else above;
  }

  // ---------------------------------------------------------------- boxes

  /** The largest float: where the minimum and maximum searches start. */
  const FLT_MAX: real := 340282346638528859811704183484516925440.0

  const Nothing := Box(FLT_MAX, -FLT_MAX, FLT_MAX, -FLT_MAX)

  function Min(a: real, b: real): real {
    if a < b then a else b
  }

  function Max(a: real, b: real): real {
    if a > b then a else b
  }

  function Grow(b: Box, s: Sky): Box {
    Box(Min(b.rMin, s.r), Max(b.rMax, s.r), Min(b.dMin, s.d), Max(b.dMax, s.d))
  }

  function Join(a: Box, b: Box): Box {
    Box(Min(a.rMin, b.rMin), Max(a.rMax, b.rMax), Min(a.dMin, b.dMin), Max(a.dMax, b.dMax))
  }

  predicate InRange(s: Sky) {
    -FLT_MAX <= s.r <= FLT_MAX && -FLT_MAX <= s.d <= FLT_MAX
  }

  /** `b` is the smallest box around the first `n` corners of a chip, in degrees. */
  ghost predicate Bounds(b: Box, u: Units, w: Solution, c: Rect, n: nat) {
    && (forall i | 0 <= i < n :: Inside(b, CornerSky(u, w, c, i)))
    && ((forall i | 0 <= i < n :: InRange(CornerSky(u, w, c, i))) && n > 0 ==> Touches(b, u, w, c, n))
    && (n == 0 ==> b == Nothing)
  }

  function CornerSky(u: Units, w: Solution, c: Rect, i: int): Sky {
    Degrees(u, ToSky(w, Corner(c, i)))
  }

  /** Each side of the box goes through a corner. */
  ghost predicate Touches(b: Box, u: Units, w: Solution, c: Rect, n: nat) {
    && (exists i | 0 <= i < n :: CornerSky(u, w, c, i).r == b.rMin)
    && (exists i | 0 <= i < n :: CornerSky(u, w, c, i).r == b.rMax)
    && (exists i | 0 <= i < n :: CornerSky(u, w, c, i).d == b.dMin)
    && (exists i | 0 <= i < n :: CornerSky(u, w, c, i).d == b.dMax)
  }

  lemma BoundsGrow(b: Box, u: Units, w: Solution, c: Rect, n: nat)
    requires Bounds(b, u, w, c, n)
    ensures Bounds(Grow(b, CornerSky(u, w, c, n)), u, w, c, n + 1)
  {
    var s, t := CornerSky(u, w, c, n), Grow(b, CornerSky(u, w, c, n));
    assert s == CornerSky(u, w, c, n);
  }

  /** The box around the four corners of a chip. */
  method ChipBox(u: Units, w: Solution, c: Rect) returns (b: Box)
    ensures Bounds(b, u, w, c, 4)
  {
    b := Nothing;
    var i := 0;
    while i < 4
      invariant 0 <= i <= 4 && Bounds(b, u, w, c, i)
    {
      BoundsGrow(b, u, w, c, i);
      b := Grow(b, CornerSky(u, w, c, i));
      i := i + 1;
    }
  }

  /** The box around the corners is a box around the whole chip. */
  lemma ChipInsideBox(u: Units, w: Solution, c: Rect, b: Box, p: Pixel)
    requires Monotone(u.deg) && Bounds(b, u, w, c, 4) && OnChip(c, p)
    ensures Inside(b, Degrees(u, ToSky(w, p)))
  {
    var i, j := BetweenCorners(w.r, c, p);
    var k, l := BetweenCorners(w.d, c, p);
    assert Inside(b, CornerSky(u, w, c, i)) && Inside(b, CornerSky(u, w, c, j));
    assert Inside(b, CornerSky(u, w, c, k)) && Inside(b, CornerSky(u, w, c, l));
    assert InOrder(At(w.r, Corner(c, i)), At(w.r, p)) && InOrder(At(w.r, p), At(w.r, Corner(c, j)));
    assert InOrder(At(w.d, Corner(c, k)), At(w.d, p)) && InOrder(At(w.d, p), At(w.d, Corner(c, l)));
  }

  /** What the headers say of a chip; `wcs` is absent when they cannot be read. */
  datatype Chip = Chip(process: bool, fileExists: bool, dataExists: bool, nAstro: int,
                       wcs: Option<Solution>, region: Rect)

  predicate Used(c: Chip) {
    c.process && c.fileExists && c.dataExists && c.nAstro != 0 && c.wcs.Some?
  }

  /** The boxes of the used chips and of the whole field. */
  method ReadAstrometry(u: Units, chips: seq<Chip>) returns (boxes: seq<Option<Box>>, field: Box)
    ensures |boxes| == |chips|
    ensures forall i | 0 <= i < |chips| :: boxes[i].Some? <==>
              && chips[i].process && chips[i].fileExists && chips[i].dataExists
              && chips[i].nAstro != 0 && chips[i].wcs != None
    ensures forall i | 0 <= i < |chips| && Used(chips[i]) ::
              Bounds(boxes[i].value, u, chips[i].wcs.value, chips[i].region, 4) && Covers(field, boxes[i].value)
    ensures SmallestField(boxes, field)
  {
    boxes, field := [], Nothing;
    var i := 0;
    while i < |chips|
      invariant 0 <= i <= |chips| && |boxes| == i
      invariant forall j | 0 <= j < i :: boxes[j].Some? <==> Used(chips[j])
      invariant forall j | 0 <= j < i && Used(chips[j]) ::
                  Bounds(boxes[j].value, u, chips[j].wcs.value, chips[j].region, 4) && Covers(field, boxes[j].value)
      invariant SmallestField(boxes, field)
    {
      if Used(chips[i]) {
        var b := ChipBox(u, chips[i].wcs.value, chips[i].region);
        FieldGrows(boxes, field, b);
        boxes, field := boxes + [Some(b)], Join(field, b);
      } else {
        boxes := boxes + [None];
      }
      i := i + 1;
    }
  }

  /** Any box that starts no further out than the searches do and covers all chip boxes
      covers the field. */
  ghost predicate SmallestField(boxes: seq<Option<Box>>, field: Box) {
    forall b :: Covers(b, Nothing) && CoversAll(b, boxes) ==> Covers(b, field)
  }

  ghost predicate CoversAll(b: Box, boxes: seq<Option<Box>>) {
    forall i | 0 <= i < |boxes| && boxes[i].Some? :: Covers(b, boxes[i].value)
  }

  lemma FieldGrows(boxes: seq<Option<Box>>, field: Box, b: Box)
    requires SmallestField(boxes, field)
    ensures SmallestField(boxes + [Some(b)], Join(field, b))
  {
    forall c | Covers(c, Nothing) && CoversAll(c, boxes + [Some(b)])
      ensures Covers(c, Join(field, b))
    {
      var all := boxes + [Some(b)];
      assert forall i | 0 <= i < |boxes| :: all[i] == boxes[i];
      assert CoversAll(c, boxes) && all[|boxes|] == Some(b);
    }
  }

  // ---------------------------------------------------------------- the search region

  predicate Narrow(field: Box, padding: real) {
    (field.rMax - field.rMin) * (1.0 + 2.0 * padding) < 180.0
  }

  /** The region of the sky that is searched for reference stars. */
  method PadRegion(field: Box, padding: real) returns (region: Box)
    ensures region == Padded(field, padding)
    ensures var dr := field.rMax - field.rMin;
      if dr * (1.0 + 2.0 * padding) < 180.0
      then region.rMin == field.rMin - dr * padding && region.rMax == field.rMax + dr * padding
      else region.rMin == 0.0 && region.rMax == 360.0
    ensures var dd := field.dMax - field.dMin;
      region.dMin == field.dMin - dd * padding && region.dMax == field.dMax + dd * padding
  {
    var rMin, rMax, dMin, dMax := field.rMin, field.rMax, field.dMin, field.dMax;
    var dr := rMax - rMin;
    if dr * (1.0 + 2.0 * padding) < 180.0 {
      rMin := rMin - dr * padding;
      rMax := rMax + dr * padding;
    } else {
      rMin := 0.0;
      rMax := 360.0;
    }
    var dd := dMax - dMin;
    dMin := dMin - dd * padding;
    dMax := dMax + dd * padding;
    region := Box(rMin, rMax, dMin, dMax);
  }

  function Padded(f: Box, padding: real): Box {
    var dr, dd := (f.rMax - f.rMin) * padding, (f.dMax - f.dMin) * padding;
    if Narrow(f, padding) then Box(f.rMin - dr, f.rMax + dr, f.dMin - dd, f.dMax + dd)
    else Box(0.0, 360.0, f.dMin - dd, f.dMax + dd)
  }

  /** The padded region covers the field exactly if the field is narrow or lies between 0
      and 360 degrees; it is never more than 360 degrees wide. */
  lemma PaddedCoversExactly(f: Box, padding: real)
    requires padding >= 0.0 && f.rMin <= f.rMax && f.dMin <= f.dMax
    ensures Covers(Padded(f, padding), f) <==> Narrow(f, padding) || (0.0 <= f.rMin && f.rMax <= 360.0)
    ensures Padded(f, padding).rMax - Padded(f, padding).rMin <= 360.0
  {
    NotNegative(f.rMax - f.rMin, padding);
    NotNegative(f.dMax - f.dMin, padding);
  }

  lemma NotNegative(a: real, b: real)
    requires a >= 0.0 && b >= 0.0
    ensures a * b >= 0.0
  {
  }

  // ---------------------------------------------------------------- the star filter

  /** A reference star.  Its chip position is overwritten for every chip in turn. */
  class RefStar {
    const sky: Sky
    var chip: Pixel

    constructor (sky: Sky, chip: Pixel)
      ensures this.sky == sky && this.chip == chip
    {
      this.sky, this.chip := sky, chip;
    }

    /** Compare with the limits of the chip first, with the extent of the image second. */
    method Locate(limits: Box, extent: Rect, toChip: Sky -> Pixel) returns (keep: bool)
      modifies this
      ensures keep == (&& limits.rMin <= sky.r <= limits.rMax && limits.dMin <= sky.d <= limits.dMax
                       && extent.x0 <= toChip(sky).x <= extent.x1 && extent.y0 <= toChip(sky).y <= extent.y1)
      ensures chip == if Inside(limits, sky) then toChip(sky) else old(chip)
    {
      if sky.r < limits.rMin || sky.r > limits.rMax { return false; }
      if sky.d < limits.dMin || sky.d > limits.dMax { return false; }
      chip := toChip(sky);
      if chip.x < extent.x0 || chip.x > extent.x1 { return false; }
      if chip.y < extent.y0 || chip.y > extent.y1 { return false; }
      keep := true;
    }
  }

  /** The stars that pass both filters, in their order. */
  function Filtered(limits: Box, extent: Rect, toChip: Sky -> Pixel, stars: seq<RefStar>): seq<RefStar> {
    if stars == [] then []
    else
      var star := stars[|stars| - 1];
      Filtered(limits, extent, toChip, stars[..|stars| - 1])
      + if Inside(limits, star.sky) && OnChip(extent, toChip(star.sky)) then [star] else []
  }

  /** The stars on the image, in their order. */
  function StarsOn(extent: Rect, toChip: Sky -> Pixel, stars: seq<RefStar>): seq<RefStar> {
    if stars == [] then []
    else
      var star := stars[|stars| - 1];
      StarsOn(extent, toChip, stars[..|stars| - 1]) + if OnChip(extent, toChip(star.sky)) then [star] else []
  }

  /** Every star is kept or not by itself, and those that are kept stay in their order. */
  lemma {:induction false} FilteredInOrder(limits: Box, extent: Rect, toChip: Sky -> Pixel,
                                           before: seq<RefStar>, star: RefStar, after: seq<RefStar>)
    ensures var s, p := star.sky, toChip(star.sky);
      Filtered(limits, extent, toChip, before + [star] + after)
      == Filtered(limits, extent, toChip, before)
         + (if && limits.rMin <= s.r <= limits.rMax && limits.dMin <= s.d <= limits.dMax
               && extent.x0 <= p.x <= extent.x1 && extent.y0 <= p.y <= extent.y1 then [star] else [])
         + Filtered(limits, extent, toChip, after)
    decreases |after|
  {
    var all, n := before + [star] + after, |after|;
    if n == 0 {
      assert all == before + [star] && all[..|all| - 1] == before;
    } else {
      assert all[..|all| - 1] == before + [star] + after[..n - 1];
      FilteredInOrder(limits, extent, toChip, before, star, after[..n - 1]);
    }
  }

  method ChooseRefstars(u: Units, stored: Box, extent: Rect, toChip: Sky -> Pixel, stars: seq<RefStar>)
    returns (kept: seq<RefStar>)
    modifies stars
    ensures kept == Filtered(Limits(u, stored), extent, toChip, stars)
    ensures forall star | star in stars ::
              star.chip == if Inside(Limits(u, stored), star.sky) then toChip(star.sky) else old(star.chip)
  {
    kept := [];
    var limits := Limits(u, stored);
    var i := 0;
    while i < |stars|
      invariant 0 <= i <= |stars| && kept == Filtered(limits, extent, toChip, stars[..i])
      invariant forall star | star in stars ::
                  star.chip == if star in stars[..i] && Inside(limits, star.sky) then toChip(star.sky) else old(star.chip)
    {
      var star := stars[i];
      assert stars[..i + 1] == stars[..i] + [star];
      var keep := star.Locate(limits, extent, toChip);
      if keep {
        kept := kept + [star];
      }
      i := i + 1;
    }
    assert stars[..|stars|] == stars;
  }

  // ---------------------------------------------------------------- what the first filter loses

  /** The two directions of the astrometric solution undo one another. */
  ghost predicate Inverse(w: Solution, toChip: Sky -> Pixel) {
    && (forall s :: ToSky(w, toChip(s)) == s)
    && (forall p :: toChip(ToSky(w, p)) == p)
  }

  /** The first filter is harmless for an image if no position on the image fails it. */
  ghost predicate Harmless(limits: Box, extent: Rect, toChip: Sky -> Pixel) {
    forall s :: OnChip(extent, toChip(s)) ==> Inside(limits, s)
  }

  /** Then, and by the next lemma only then, the two filters keep exactly the stars on the
      image, whatever the catalogue. */
  lemma {:induction false} HarmlessKeepsAll(limits: Box, extent: Rect, toChip: Sky -> Pixel, stars: seq<RefStar>)
    requires Harmless(limits, extent, toChip)
    ensures Filtered(limits, extent, toChip, stars) == StarsOn(extent, toChip, stars)
  {
    if stars != [] {
      HarmlessKeepsAll(limits, extent, toChip, stars[..|stars| - 1]);
    }
  }

  lemma HarmfulDropsAStar(limits: Box, extent: Rect, toChip: Sky -> Pixel, star: RefStar)
    ensures Filtered(limits, extent, toChip, [star]) == StarsOn(extent, toChip, [star])
            <==> (OnChip(extent, toChip(star.sky)) ==> Inside(limits, star.sky))
  {
    assert [star][..0] == [];
  }

  /** Whatever limits the code arrives at, with whatever rounding, and whatever image it
      filters: the first filter is harmless exactly if it lets the four corners of the
      image pass. */
  lemma HarmlessExactly(w: Solution, limits: Box, extent: Rect, toChip: Sky -> Pixel)
    requires Inverse(w, toChip) && extent.x0 <= extent.x1 && extent.y0 <= extent.y1
    ensures Harmless(limits, extent, toChip)
            <==> forall i | 0 <= i < 4 :: Inside(limits, ToSky(w, Corner(extent, i)))
  {
    if Harmless(limits, extent, toChip) {
      forall i | 0 <= i < 4
        ensures Inside(limits, ToSky(w, Corner(extent, i)))
      {
        assert OnChip(extent, toChip(ToSky(w, Corner(extent, i))));
      }
    }
    if forall i | 0 <= i < 4 :: Inside(limits, ToSky(w, Corner(extent, i))) {
      forall s | OnChip(extent, toChip(s))
        ensures Inside(limits, s)
      {
        var i, j := BetweenCorners(w.r, extent, toChip(s));
        var k, l := BetweenCorners(w.d, extent, toChip(s));
        assert Inside(limits, ToSky(w, Corner(extent, i))) && Inside(limits, ToSky(w, Corner(extent, j)));
        assert Inside(limits, ToSky(w, Corner(extent, k))) && Inside(limits, ToSky(w, Corner(extent, l)));
      }
    }
  }

  /** Turning the corner to degrees and back does not move it inwards across a side of the
      box that it lies on. */
  ghost predicate NotInwards(u: Units, b: Box, s: Sky) {
    && (u.deg(s.r) == b.rMin ==> u.rad(u.deg(s.r)) <= s.r)
    && (u.deg(s.r) == b.rMax ==> s.r <= u.rad(u.deg(s.r)))
    && (u.deg(s.d) == b.dMin ==> u.rad(u.deg(s.d)) <= s.d)
    && (u.deg(s.d) == b.dMax ==> s.d <= u.rad(u.deg(s.d)))
  }

  /** For an image that is just the region the box was made for, this is exactly what makes
      the first filter harmless. */
  lemma HarmlessOnOwnRegion(u: Units, w: Solution, region: Rect, b: Box, toChip: Sky -> Pixel)
    requires Monotone(u.deg) && region.x0 <= region.x1 && region.y0 <= region.y1
    requires Inverse(w, toChip) && Bounds(b, u, w, region, 4)
    requires forall i | 0 <= i < 4 :: InRange(CornerSky(u, w, region, i))
    ensures Harmless(Limits(u, b), region, toChip)
            <==> forall i | 0 <= i < 4 :: NotInwards(u, b, ToSky(w, Corner(region, i)))
  {
    HarmlessExactly(w, Limits(u, b), region, toChip);
    forall i | 0 <= i < 4 && Inside(Limits(u, b), ToSky(w, Corner(region, i))) {
      InsideNotInwards(u, b, ToSky(w, Corner(region, i)));
    }
    if forall i | 0 <= i < 4 :: NotInwards(u, b, ToSky(w, Corner(region, i))) {
      CornersWithinLimits(u, w, region, b);
    }
  }

  lemma CornersWithinLimits(u: Units, w: Solution, region: Rect, b: Box)
    requires Monotone(u.deg) && Bounds(b, u, w, region, 4)
    requires forall i | 0 <= i < 4 :: InRange(CornerSky(u, w, region, i))
    requires forall i | 0 <= i < 4 :: NotInwards(u, b, ToSky(w, Corner(region, i)))
    ensures forall i | 0 <= i < 4 :: Inside(Limits(u, b), ToSky(w, Corner(region, i)))
  {
    var skies := CornerSkies(w, region);
    CornersTouch(u, w, region, b);
    forall i | 0 <= i < 4
      ensures Inside(Limits(u, b), ToSky(w, Corner(region, i)))
    {
      assert forall j | 0 <= j < 4 :: NotInwards(u, b, skies[j]);
      WithinLimits(u, b, skies, i);
    }
  }

  lemma InsideNotInwards(u: Units, b: Box, s: Sky)
    requires Inside(Limits(u, b), s)
    ensures NotInwards(u, b, s)
  {
  }

  function CornerSkies(w: Solution, c: Rect): (r: seq<Sky>)
    ensures |r| == 4 && forall i | 0 <= i < 4 :: r[i] == ToSky(w, Corner(c, i))
  {
    seq(4, i => ToSky(w, Corner(c, i)))
  }

  /** Each side of the box is that of one of the positions, and all lie within it. */
  ghost predicate Framed(u: Units, b: Box, skies: seq<Sky>) {
    && (forall i | 0 <= i < |skies| :: Inside(b, Degrees(u, skies[i])))
    && (exists i | 0 <= i < |skies| :: u.deg(skies[i].r) == b.rMin)
    && (exists i | 0 <= i < |skies| :: u.deg(skies[i].r) == b.rMax)
    && (exists i | 0 <= i < |skies| :: u.deg(skies[i].d) == b.dMin)
    && (exists i | 0 <= i < |skies| :: u.deg(skies[i].d) == b.dMax)
  }

  lemma CornersTouch(u: Units, w: Solution, c: Rect, b: Box)
    requires Bounds(b, u, w, c, 4) && Touches(b, u, w, c, 4)
    ensures Framed(u, b, CornerSkies(w, c))
  {
    var skies := CornerSkies(w, c);
    assert forall i | 0 <= i < 4 :: CornerSky(u, w, c, i) == Degrees(u, skies[i]);
  }

  lemma WithinLimits(u: Units, b: Box, skies: seq<Sky>, i: nat)
    requires Monotone(u.deg) && Framed(u, b, skies) && i < |skies|
    requires forall j | 0 <= j < |skies| :: NotInwards(u, b, skies[j])
    ensures Inside(Limits(u, b), skies[i])
  {
    var s := skies[i];
    assert Inside(b, Degrees(u, s)) && NotInwards(u, b, s);
    var west :| 0 <= west < |skies| && u.deg(skies[west].r) == b.rMin;
    assert NotInwards(u, b, skies[west]);
    LowerSide(u, skies[west].r, s.r);
    var east :| 0 <= east < |skies| && u.deg(skies[east].r) == b.rMax;
    assert NotInwards(u, b, skies[east]);
    UpperSide(u, skies[east].r, s.r);
    var south :| 0 <= south < |skies| && u.deg(skies[south].d) == b.dMin;
    assert NotInwards(u, b, skies[south]);
    LowerSide(u, skies[south].d, s.d);
    var north :| 0 <= north < |skies| && u.deg(skies[north].d) == b.dMax;
    assert NotInwards(u, b, skies[north]);
    UpperSide(u, skies[north].d, s.d);
  }

  lemma LowerSide(u: Units, x: real, v: real)
    requires Monotone(u.deg) && u.rad(u.deg(x)) <= x && u.deg(x) <= u.deg(v)
    requires u.deg(v) == u.deg(x) ==> u.rad(u.deg(v)) <= v
    ensures u.rad(u.deg(x)) <= v
  {
    assert v <= x ==> InOrder(v, x);
  }

  lemma UpperSide(u: Units, x: real, v: real)
    requires Monotone(u.deg) && x <= u.rad(u.deg(x)) && u.deg(v) <= u.deg(x)
    requires u.deg(v) == u.deg(x) ==> v <= u.rad(u.deg(v))
    ensures v <= u.rad(u.deg(x))
  {
    assert x <= v ==> InOrder(x, v);
  }

  /** If turning to degrees and back changes no position, and the image lies within the region
      the box was made for, the two filters keep exactly the stars on the image, in their
      order. */
  lemma RoundTripKeepsAll(u: Units, w: Solution, region: Rect, b: Box, extent: Rect,
                          toChip: Sky -> Pixel, stars: seq<RefStar>)
    requires Monotone(u.deg) && Monotone(u.rad) && (forall x :: u.rad(u.deg(x)) == x)
    requires Inverse(w, toChip) && Bounds(b, u, w, region, 4)
    requires forall p :: OnChip(extent, p) ==> OnChip(region, p)
    ensures Filtered(Limits(u, b), extent, toChip, stars) == StarsOn(extent, toChip, stars)
  {
    forall s | OnChip(extent, toChip(s))
      ensures Inside(Limits(u, b), s)
    {
      ChipInsideBox(u, w, region, b, toChip(s));
      assert InOrder(b.rMin, u.deg(s.r)) && InOrder(u.deg(s.r), b.rMax);
      assert InOrder(b.dMin, u.deg(s.d)) && InOrder(u.deg(s.d), b.dMax);
    }
    HarmlessKeepsAll(Limits(u, b), extent, toChip, stars);
  }

  function Factor(f: real): real -> real {
    x => f * x
  }

  lemma FactorIsMonotone(f: real)
    requires f > 0.0
    ensures Monotone(Factor(f))
  {
    forall x, y | InOrder(x, y)
      ensures Factor(f)(x) <= Factor(f)(y)
    {
      Slope(f, x, y);
    }
  }

  /** Plain factors that are inverse to one another, without rounding, are such units. */
  lemma FactorsRoundTrip(deg: real, rad: real)
    requires deg > 0.0 && rad * deg == 1.0
    ensures Monotone(Factor(deg)) && Monotone(Factor(rad))
    ensures forall x :: Factor(rad)(Factor(deg)(x)) == x
  {
    Positive(deg, rad);
    FactorIsMonotone(deg);
    FactorIsMonotone(rad);
    forall x
      ensures Factor(rad)(Factor(deg)(x)) == x
    {
      Undo(deg, rad, x);
    }
  }

  lemma Positive(deg: real, rad: real)
    requires deg > 0.0 && rad * deg == 1.0
    ensures rad > 0.0
  {
  }

  lemma Undo(deg: real, rad: real, x: real)
    requires rad * deg == 1.0
    ensures rad * (deg * x) == x
  {
    assert rad * (deg * x) == (rad * deg) * x;
  }

  // ---------------------------------------------------------------- the search finds the chips

  /** Whatever lies on a used chip lies in the searched region, if the field is narrow or
      between 0 and 360 degrees. */
  lemma ChipsAreSearched(u: Units, w: Solution, c: Rect, b: Box, field: Box, padding: real, p: Pixel)
    requires Monotone(u.deg) && padding >= 0.0
    requires Bounds(b, u, w, c, 4) && Covers(field, b) && OnChip(c, p)
    requires Narrow(field, padding) || (0.0 <= field.rMin && field.rMax <= 360.0)
    ensures Inside(Padded(field, padding), Degrees(u, ToSky(w, p)))
  {
    ChipInsideBox(u, w, c, b, p);
    PaddedCoversExactly(field, padding);
    InsideCovering(Padded(field, padding), field, b, Degrees(u, ToSky(w, p)));
  }

  lemma InsideCovering(a: Box, f: Box, b: Box, s: Sky)
    requires Covers(a, f) && Covers(f, b) && Inside(b, s)
    ensures Inside(a, s)
  {
  }
}
