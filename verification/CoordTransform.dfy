/**
 The mouse mapping of app/remote/coord_transform.py in exact rational arithmetic: a scale is
 a fraction `num / den`, and `int()` drops the fractional part towards zero.
 */
module CoordTransform {
  import opened Wrappers

  datatype Screen = Screen(width: nat, height: nat, dpi: nat)

  datatype Policy = Letterbox | Stretch | Crop

  datatype Error = DivisionByZero

  const STANDARD_DPI := 96
  const SKIP := (-1, -1)

  function Trunc(num: int, den: nat): int
    requires den > 0
  {
    if num >= 0 then num / den else -((-num) / den)
  }

  function Abs(n: int): nat {
    if n < 0 then -n else n
  }

  /** A coordinate or a length scaled by `num / den`. */
  function Scaled(v: int, num: nat, den: nat): int
    requires den > 0
  {
    Trunc(v * num, den)
  }

  /** Half of what is left of `outer`, rounded down. */
  function Margin(outer: int, inner: int): int {
    (outer - inner) / 2
  }

  /** The aspect ratios differ by less than a thousandth. */
  predicate SameAspect(s: Screen, t: Screen) {
    1000 * Abs(s.width * t.height - t.width * s.height) < s.height * t.height
  }

  predicate Wider(s: Screen, t: Screen) {
    s.width * t.height > t.width * s.height
  }

  lemma NotFlat(s: Screen, t: Screen)
    requires s.width > 0 && t.height > 0 && !Wider(s, t)
    ensures t.width > 0
  {
    TimesGrows(1, t.height, s.width);
  }

  /** Before the DPI correction and the clamp; `None` is a point outside the cropped window. */
  function Mapped(s: Screen, t: Screen, x: int, y: int, policy: Policy): Option<(int, int)>
    requires s.width > 0 && s.height > 0 && t.height > 0
  {
    if SameAspect(s, t) || policy == Stretch then
      Some((Scaled(x, t.width, s.width), Scaled(y, t.height, s.height)))
    else if policy == Letterbox then
      if Wider(s, t) then
        Some((Scaled(x, t.width, s.width),
              Margin(t.height, Scaled(s.height, t.width, s.width)) + Scaled(y, t.width, s.width)))
      else
        Some((Margin(t.width, Scaled(s.width, t.height, s.height)) + Scaled(x, t.height, s.height),
              Scaled(y, t.height, s.height)))
    else if Wider(s, t) then
      var width := Scaled(t.width, s.height, t.height);
      var left := Margin(s.width, width);
      if x < left || x >= left + width then None
      else Some((Scaled(x - left, t.height, s.height), Scaled(y, t.height, s.height)))
    else
      NotFlat(s, t);
      var height := Scaled(t.height, s.width, t.width);
      var top := Margin(s.height, height);
      if y < top || y >= top + height then None
      else Some((Scaled(x, t.width, s.width), Scaled(y - top, t.width, s.width)))
  }

  function Clamped(v: int, size: nat): int {
    if size == 0 then v else if v < 0 then 0 else if v > size - 1 then size - 1 else v
  }

  function DpiCorrected(v: int, dpi: nat): int {
    if dpi == STANDARD_DPI then v else Trunc(v * dpi, STANDARD_DPI)
  }

  function TransformCoordinates(s: Screen, t: Screen, x: int, y: int, policy: Policy): Result<(int, int), Error> {
    if s.width == 0 || s.height == 0 then Ok((0, 0))
    else if t.height == 0 then Err(DivisionByZero)
    else
      match Mapped(s, t, x, y, policy)
      case None => Ok(SKIP)
      case Some(p) =>
        Ok((Clamped(DpiCorrected(p.0, t.dpi), t.width), Clamped(DpiCorrected(p.1, t.dpi), t.height)))
  }

  // ---------- arithmetic along one axis ----------

  lemma TimesOrder(a: int, b: int, n: nat)
    requires n > 0
    ensures a * n <= b * n <==> a <= b
    ensures a * n < b * n <==> a < b
  {
    if a < b {
      TimesGrows(a + 1, b, n);
    } else {
      TimesGrows(b, a, n);
    }
  }

  lemma DivLess(n: int, m: int, den: nat)
    requires den > 0 && 0 <= n < m * den
    ensures 0 <= n / den < m
  {
    TimesOrder(n / den, m, den);
  }

  lemma DivGrows(a: int, b: int, den: nat)
    requires den > 0 && 0 <= a <= b
    ensures 0 <= a / den <= b / den
  {
    TimesOrder(a / den, b / den + 1, den);
  }

  lemma TimesGrows(a: int, b: int, num: nat)
    requires a <= b
    ensures a * num <= b * num
  {
  }

  lemma TruncGrows(a: int, b: int, den: nat)
    requires den > 0 && a <= b
    ensures Trunc(a, den) <= Trunc(b, den)
  {
    if a >= 0 {
      DivGrows(a, b, den);
    } else if b <= 0 {
      DivGrows(-b, -a, den);
    } else {
      DivGrows(0, -a, den);
      DivGrows(0, b, den);
    }
  }

  lemma ScaledGrows(a: int, b: int, num: nat, den: nat)
    requires den > 0 && a <= b
    ensures Scaled(a, num, den) <= Scaled(b, num, den)
    ensures a >= 0 ==> Scaled(a, num, den) >= 0
  {
    TimesGrows(a, b, num);
    TruncGrows(a * num, b * num, den);
    if a >= 0 {
      TimesGrows(0, a, num);
    }
  }

  /** Stretching a whole side onto a whole side stays inside it. */
  lemma SideFits(v: int, from: nat, to: nat)
    requires 0 <= v < from && to > 0
    ensures 0 <= Scaled(v, to, from) < to
  {
    TimesGrows(0, v, to);
    assert v * to < to * from by {
      TimesGrows(v, from - 1, to);
    }
    DivLess(v * to, to, from);
  }

  /** A letterboxed picture, its margin included, stays inside the screen. */
  lemma PictureFits(v: int, from: nat, to: nat, num: nat, den: nat)
    requires den > 0 && 0 <= v < from && from * num < to * den
    ensures var margin := Margin(to, Scaled(from, num, den));
      0 <= margin <= margin + Scaled(v, num, den) < to
  {
    TimesGrows(0, from, num);
    DivLess(from * num, to, den);
    ScaledGrows(v, from, num, den);
  }

  /** A cropped window lies inside the sender, and the points in it map inside the target. */
  lemma WindowFits(from: nat, to: nat, num: nat, den: nat)
    requires num > 0 && den > 0 && to * den < from * num
    ensures var width := Scaled(to, den, num);
      && 0 <= Margin(from, width) <= Margin(from, width) + width <= from
      && forall v :: 0 <= v < width ==> 0 <= Scaled(v, num, den) < to
  {
    var width := Scaled(to, den, num);
    TimesGrows(0, to, den);
    DivLess(to * den, from, num);
    assert width * num <= to * den;
    forall v | 0 <= v < width
      ensures 0 <= Scaled(v, num, den) < to
    {
      TimesGrows(v, width - 1, num);
      TimesGrows(0, v, num);
      assert (width - 1) * num == width * num - num;
      DivLess(v * num, to, den);
    }
  }

  // ---------- what the mapping guarantees ----------

  predicate OnScreen(s: Screen, x: int, y: int) {
    0 <= x < s.width && 0 <= y < s.height
  }

  predicate Positive(s: Screen) {
    s.width > 0 && s.height > 0
  }

  lemma MappedOnScreen(s: Screen, t: Screen, x: int, y: int, policy: Policy)
    requires Positive(t) && OnScreen(s, x, y)
    ensures var p := Mapped(s, t, x, y, policy); p.Some? ==> OnScreen(t, p.value.0, p.value.1)
  {
    if SameAspect(s, t) || policy == Stretch {
      SideFits(x, s.width, t.width);
      SideFits(y, s.height, t.height);
    } else if policy == Letterbox {
      if Wider(s, t) {
        SideFits(x, s.width, t.width);
        PictureFits(y, s.height, t.height, t.width, s.width);
      } else {
        NotAsWide(s, t);
        SideFits(y, s.height, t.height);
        PictureFits(x, s.width, t.width, t.height, s.height);
      }
    } else if Wider(s, t) {
      SideFits(y, s.height, t.height);
      WindowFits(s.width, t.width, t.height, s.height);
    } else {
      NotAsWide(s, t);
      SideFits(x, s.width, t.width);
      WindowFits(s.height, t.height, t.width, s.width);
    }
  }

  /** Screens whose aspects differ at all differ strictly. */
  lemma NotAsWide(s: Screen, t: Screen)
    requires Positive(s) && Positive(t) && !SameAspect(s, t) && !Wider(s, t)
    ensures s.width * t.height < t.width * s.height
  {
    TimesGrows(1, s.height, t.height);
  }

  /** For every point of the sender the final clamp changes nothing. */
  lemma ClampIsIdle(s: Screen, t: Screen, x: int, y: int, policy: Policy)
    requires Positive(t) && t.dpi == STANDARD_DPI && OnScreen(s, x, y)
    ensures TransformCoordinates(s, t, x, y, policy)
         == match Mapped(s, t, x, y, policy)
            case None => Ok(SKIP)
            case Some(p) => Ok(p)
  {
    MappedOnScreen(s, t, x, y, policy);
  }

  /** Whatever the point and the DPI, the answer is the skip signal or a point of the target. */
  lemma AlwaysOnTarget(s: Screen, t: Screen, x: int, y: int, policy: Policy)
    requires Positive(s) && Positive(t)
    ensures var r := TransformCoordinates(s, t, x, y, policy);
      r.Ok? && if Mapped(s, t, x, y, policy).None? then r.value == SKIP else OnScreen(t, r.value.0, r.value.1)
  {
  }

  /** The window that CROP shows, as `left, top, right, bottom`. */
  function Window(s: Screen, t: Screen): (int, int, int, int)
    requires Positive(s) && Positive(t)
  {
    if SameAspect(s, t) then (0, 0, s.width, s.height)
    else if Wider(s, t) then
      var width := Scaled(t.width, s.height, t.height);
      (Margin(s.width, width), 0, Margin(s.width, width) + width, s.height)
    else
      var height := Scaled(t.height, s.width, t.width);
      (0, Margin(s.height, height), s.width, Margin(s.height, height) + height)
  }

  /** CROP skips exactly the sender points outside a window that lies on the sender. */
  lemma CropSkipsIff(s: Screen, t: Screen, x: int, y: int)
    requires Positive(t) && OnScreen(s, x, y)
    ensures var w := Window(s, t);
      && 0 <= w.0 <= w.2 <= s.width && 0 <= w.1 <= w.3 <= s.height
      && (TransformCoordinates(s, t, x, y, Crop) == Ok(SKIP) <==> !(w.0 <= x < w.2 && w.1 <= y < w.3))
  {
    AlwaysOnTarget(s, t, x, y, Crop);
    if !SameAspect(s, t) {
      if Wider(s, t) {
        WindowFits(s.width, t.width, t.height, s.height);
      } else {
        NotAsWide(s, t);
        WindowFits(s.height, t.height, t.width, s.width);
      }
    }
  }

  /** Each coordinate of the answer grows with the same coordinate of the point and ignores the other. */
  lemma Monotone(s: Screen, t: Screen, x1: int, y1: int, x2: int, y2: int, policy: Policy)
    requires Positive(s) && Positive(t) && t.dpi == STANDARD_DPI && x1 <= x2
    ensures var a, b := TransformCoordinates(s, t, x1, y1, policy), TransformCoordinates(s, t, x2, y2, policy);
      a != Ok(SKIP) && b != Ok(SKIP) ==>
        && a.value.0 <= b.value.0
        && (x1 == x2 ==> a.value.0 == b.value.0)
        && (y1 <= y2 ==> a.value.1 <= b.value.1)
        && (y1 >= y2 ==> a.value.1 >= b.value.1)
  {
    AxisGrows(s, x1, x2, t);
    AxisGrows(s, y1, y2, t);
    AxisGrows(s, y2, y1, t);
    if !SameAspect(s, t) && policy == Crop {
      if Wider(s, t) {
        var left := Margin(s.width, Scaled(t.width, s.height, t.height));
        ScaledGrows(x1 - left, x2 - left, t.height, s.height);
      } else {
        var top := Margin(s.height, Scaled(t.height, s.width, t.width));
        AxisGrows(s, y1 - top, y2 - top, t);
        AxisGrows(s, y2 - top, y1 - top, t);
      }
    }
  }

  lemma AxisGrows(s: Screen, a: int, b: int, t: Screen)
    requires Positive(s)
    ensures a <= b ==> Scaled(a, t.width, s.width) <= Scaled(b, t.width, s.width)
    ensures a <= b ==> Scaled(a, t.height, s.height) <= Scaled(b, t.height, s.height)
  {
    if a <= b {
      ScaledGrows(a, b, t.width, s.width);
      ScaledGrows(a, b, t.height, s.height);
    }
  }

  // ---------- where each policy puts a point ----------

  /** The picture fills the width, or else the height. */
  predicate TouchesSides(s: Screen, t: Screen) {
    s.width * t.height > t.width * s.height
  }

  /** The aspect ratios differ by a thousandth or more. */
  predicate AspectsDiffer(s: Screen, t: Screen) {
    || 1000 * (s.width * t.height - t.width * s.height) >= s.height * t.height
    || 1000 * (t.width * s.height - s.width * t.height) >= s.height * t.height
  }

  /** A strip of `inner` starting at `start` lies in the middle of `outer`, to a pixel. */
  predicate Centred(outer: int, inner: int, start: int) {
    start >= 0 && 0 <= (outer - inner - start) - start <= 1
  }

  lemma InTheMiddle(outer: nat, inner: nat)
    requires inner <= outer
    ensures Centred(outer, inner, Margin(outer, inner))
  {
  }

  lemma AtZero(num: nat, den: nat)
    requires den > 0
    ensures Scaled(0, num, den) == 0
  {
  }

  lemma ScaledIs(v: nat, num: nat, den: nat)
    requires den > 0
    ensures Scaled(v, num, den) == v * num / den && v * num / den >= 0
  {
    TimesGrows(0, v, num);
  }

  /** STRETCH, and every policy between screens of one aspect ratio: each axis has the scale of its side. */
  lemma StretchPlaces(s: Screen, t: Screen, x: int, y: int, policy: Policy)
    requires Positive(t) && t.dpi == STANDARD_DPI && OnScreen(s, x, y) && (policy == Stretch || !AspectsDiffer(s, t))
    ensures TransformCoordinates(s, t, x, y, policy) == Ok((x * t.width / s.width, y * t.height / s.height))
  {
    ClampIsIdle(s, t, x, y, policy);
    ScaledIs(x, t.width, s.width);
    ScaledIs(y, t.height, s.height);
  }

  /** LETTERBOX: both axes have the scale of the side that fits, and the picture stands in the middle. */
  lemma LetterboxPlaces(s: Screen, t: Screen, x: int, y: int)
    requires Positive(t) && t.dpi == STANDARD_DPI && OnScreen(s, x, y) && AspectsDiffer(s, t)
    ensures var corner, r := TransformCoordinates(s, t, 0, 0, Letterbox), TransformCoordinates(s, t, x, y, Letterbox);
      && corner.Ok? && r.Ok?
      && var (left, top) := corner.value;
         if TouchesSides(s, t) then
           && left == 0 && Centred(t.height, s.height * t.width / s.width, top)
           && r.value == (x * t.width / s.width, top + y * t.width / s.width)
         else
           && top == 0 && Centred(t.width, s.width * t.height / s.height, left)
           && r.value == (left + x * t.height / s.height, y * t.height / s.height)
  {
    ClampIsIdle(s, t, x, y, Letterbox);
    ClampIsIdle(s, t, 0, 0, Letterbox);
    if TouchesSides(s, t) {
      LetterboxSide(s.height, t.height, t.width, s.width, y);
      ScaledIs(x, t.width, s.width);
      AtZero(t.width, s.width);
    } else {
      NotAsWide(s, t);
      LetterboxSide(s.width, t.width, t.height, s.height, x);
      ScaledIs(y, t.height, s.height);
      AtZero(t.height, s.height);
    }
  }

  lemma LetterboxSide(from: nat, to: nat, num: nat, den: nat, v: nat)
    requires den > 0 && v < from && from * num < to * den
    ensures Scaled(from, num, den) == from * num / den && Scaled(v, num, den) == v * num / den
    ensures Scaled(0, num, den) == 0 && Centred(to, from * num / den, Margin(to, Scaled(from, num, den)))
  {
    ScaledIs(from, num, den);
    ScaledIs(v, num, den);
    AtZero(num, den);
    TimesGrows(0, from, num);
    DivLess(from * num, to, den);
    InTheMiddle(to, from * num / den);
  }

  /** CROP: a window in the middle of the sender, shown at the scale of the side that is whole; what lies
      outside is skipped. */
  lemma CropPlaces(s: Screen, t: Screen, x: int, y: int)
    requires Positive(t) && t.dpi == STANDARD_DPI && OnScreen(s, x, y) && AspectsDiffer(s, t)
    ensures var r := TransformCoordinates(s, t, x, y, Crop);
      if TouchesSides(s, t) then
        var width := t.width * s.height / t.height;
        exists left :: Centred(s.width, width, left)
                       && r == if left <= x < left + width then Ok(((x - left) * t.height / s.height,
                                                                    y * t.height / s.height)) else Ok(SKIP)
      else
        var height := t.height * s.width / t.width;
        exists top :: Centred(s.height, height, top)
                      && r == if top <= y < top + height then Ok((x * t.width / s.width,
                                                                  (y - top) * t.width / s.width)) else Ok(SKIP)
  {
    ClampIsIdle(s, t, x, y, Crop);
    if TouchesSides(s, t) {
      var left := CropSide(s.width, t.width, t.height, s.height, x);
      ScaledIs(y, t.height, s.height);
    } else {
      NotAsWide(s, t);
      var top := CropSide(s.height, t.height, t.width, s.width, y);
      ScaledIs(x, t.width, s.width);
    }
  }

  lemma CropSide(from: nat, to: nat, num: nat, den: nat, v: nat) returns (start: int)
    requires num > 0 && den > 0 && to * den < from * num
    ensures Scaled(to, den, num) == to * den / num && start == Margin(from, to * den / num)
    ensures Centred(from, to * den / num, start)
    ensures v >= start ==> Scaled(v - start, num, den) == (v - start) * num / den
  {
    start := Margin(from, to * den / num);
    ScaledIs(to, den, num);
    TimesGrows(0, to, den);
    DivLess(to * den, from, num);
    InTheMiddle(from, to * den / num);
    if v >= start {
      ScaledIs(v - start, num, den);
    }
  }

  /** Another DPI scales the answer for 96 DPI, up to the edge of the target. */
  lemma DpiScales(s: Screen, t: Screen, x: int, y: int, policy: Policy)
    requires Positive(t) && OnScreen(s, x, y)
    ensures var plain := TransformCoordinates(s, t.(dpi := 96), x, y, policy);
      var r := TransformCoordinates(s, t, x, y, policy);
      && plain.Ok? && r.Ok?
      && (plain.value == SKIP <==> r.value == SKIP)
      && (plain.value != SKIP ==>
            && var (across, down) := (plain.value.0 * t.dpi / 96, plain.value.1 * t.dpi / 96);
               r.value == (if across < t.width then across else t.width - 1,
                           if down < t.height then down else t.height - 1))
  {
    var u := t.(dpi := 96);
    ClampIsIdle(s, u, x, y, policy);
    MappedOnScreen(s, t, x, y, policy);
    assert Mapped(s, u, x, y, policy) == Mapped(s, t, x, y, policy);
    if Mapped(s, t, x, y, policy).Some? {
      var p := Mapped(s, t, x, y, policy).value;
      DpiCorrectedIs(p.0, t.dpi);
      DpiCorrectedIs(p.1, t.dpi);
    }
  }

  lemma DpiCorrectedIs(v: nat, dpi: nat)
    ensures DpiCorrected(v, dpi) == v * dpi / 96 && v * dpi / 96 >= 0
  {
    ScaledIs(v, dpi, 96);
  }

  // ---------- there and back ----------

  /** The same with the products named: `q = there * from`, rounded down twice. */
  lemma RoundedTwice(v: int, back: int, from: nat, to: nat, q: int)
    requires from > 0 && to > 0
    requires q <= v * to < q + from && back * to <= q < back * to + to
    ensures back <= v && (back == v <==> q == v * to)
    ensures to >= from ==> v - 1 <= back
  {
    TimesOrder(back, v, to);
    TimesOrder(v, back + 1, to);
    TimesOrder(v, back + 2, to);
    assert (back + 1) * to == back * to + to && (back + 2) * to == back * to + 2 * to;
  }

  lemma Rounded(n: int, den: nat)
    requires den > 0
    ensures n / den * den <= n < n / den * den + den
    ensures n % den == n - n / den * den
  {
  }

  lemma SideAndBack(v: int, from: nat, to: nat)
    requires 0 <= v < from && to > 0
    ensures var back := Scaled(Scaled(v, to, from), from, to);
      && back <= v && (back == v <==> v * to % from == 0)
      && (to >= from ==> v - 1 <= back)
  {
    var there := Scaled(v, to, from);
    SideFits(v, from, to);
    TimesGrows(0, v, to);
    TimesGrows(0, there, from);
    Rounded(v * to, from);
    Rounded(there * from, to);
    RoundedTwice(v, there * from / to, from, to, there * from);
  }

  /** STRETCH there and back: never to the right or below, home again exactly when the pixel
      divides, and at most one pixel off when the target is at least as large. */
  lemma StretchThereAndBack(s: Screen, t: Screen, x: int, y: int)
    requires Positive(t) && s.dpi == STANDARD_DPI && t.dpi == STANDARD_DPI && OnScreen(s, x, y)
    ensures var there := TransformCoordinates(s, t, x, y, Stretch);
      && there.Ok?
      && var back := TransformCoordinates(t, s, there.value.0, there.value.1, Stretch);
      && back.Ok? && back.value.0 <= x && back.value.1 <= y
      && (back == Ok((x, y)) <==> x * t.width % s.width == 0 && y * t.height % s.height == 0)
      && (t.width >= s.width && t.height >= s.height ==> x - 1 <= back.value.0 && y - 1 <= back.value.1)
  {
    ClampIsIdle(s, t, x, y, Stretch);
    SideFits(x, s.width, t.width);
    SideFits(y, s.height, t.height);
    var there := TransformCoordinates(s, t, x, y, Stretch).value;
    ClampIsIdle(t, s, there.0, there.1, Stretch);
    SideAndBack(x, s.width, t.width);
    SideAndBack(y, s.height, t.height);
  }
}
