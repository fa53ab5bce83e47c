/** The colour conversions of the WLED plugin (pkg/bridge/wled/mapper.go), over the reals and
    without the final rounding. */
module HueSat {
  datatype Rgb = Rgb(r: real, g: real, b: real)
  datatype Hs = Hs(hue: real, sat: real)

  function Max(a: real, b: real): real { if a < b then b else a }

  function Min(a: real, b: real): real { if a < b then a else b }

  function Abs(a: real): real { if a < 0.0 then -a else a }

  /** math.Mod: the remainder has the sign of x. */
  function Mod(x: real, m: real): real
    requires m > 0.0
  {
    if x >= 0.0 then x - m * (x / m).Floor as real else -(-x - m * (-x / m).Floor as real)
  }

  predicate IsColor(c: Rgb) {
    0.0 <= c.r <= 255.0 && 0.0 <= c.g <= 255.0 && 0.0 <= c.b <= 255.0
  }

  predicate IsHs(h: Hs) {
    0.0 <= h.hue < 360.0 && 0.0 <= h.sat <= 100.0
  }

  function Brightest(c: Rgb): real {
    Max(c.r, Max(c.g, c.b))
  }

  function RgbToHueSat(c: Rgb): Hs
    requires IsColor(c)
  {
    var rf, gf, bf := c.r / 255.0, c.g / 255.0, c.b / 255.0;
    var mx := Max(rf, Max(gf, bf));
    var delta := mx - Min(rf, Min(gf, bf));
    if delta == 0.0 then Hs(0.0, 0.0)
    else
      var hue := HueOf(rf, gf, bf, mx, delta);
      Hs(if hue < 0.0 then hue + 360.0 else hue, delta / mx * 100.0)
  }

  function HueOf(rf: real, gf: real, bf: real, mx: real, delta: real): real
    requires delta != 0.0
  {
    if mx == rf then 60.0 * Mod((gf - bf) / delta, 6.0)
    else if mx == gf then 60.0 * ((bf - rf) / delta + 2.0)
    else 60.0 * ((rf - gf) / delta + 4.0)
  }

  /** How much of the second strongest component a hue has. */
  function Wave(hue: real): (w: real)
    ensures hue >= 0.0 ==> 0.0 <= w <= 1.0
  {
    1.0 - Abs(Mod(hue / 60.0, 2.0) - 1.0)
  }

  /** The share w of c. */
  function Share(c: real, w: real): (x: real)
    ensures 0.0 <= c && 0.0 <= w <= 1.0 ==> 0.0 <= x <= c
  {
    c * w
  }

  function HueSatToRgb(h: Hs): (rgb: Rgb)
    ensures IsHs(h) ==> IsColor(rgb) && Brightest(rgb) == 255.0
  {
    var c := h.sat / 100.0;
    var x := Share(c, Wave(h.hue));
    var m := 1.0 - c;
    var f :=
      if h.hue < 60.0 then Rgb(c, x, 0.0)
      else if h.hue < 120.0 then Rgb(x, c, 0.0)
      else if h.hue < 180.0 then Rgb(0.0, c, x)
      else if h.hue < 240.0 then Rgb(0.0, x, c)
      else if h.hue < 300.0 then Rgb(x, 0.0, c)
      else Rgb(c, 0.0, x);
    Rgb((f.r + m) * 255.0, (f.g + m) * 255.0, (f.b + m) * 255.0)
  }

  // -------------------------------------------------------------------- sectors

  lemma FloorIs(x: real, n: int)
    requires n as real <= x < n as real + 1.0
    ensures x.Floor == n
  {
  }

  function Sector(hue: real): int {
    if hue < 60.0 then 0 else if hue < 120.0 then 1 else if hue < 180.0 then 2
    else if hue < 240.0 then 3 else if hue < 300.0 then 4 else 5
  }

  /** The hue in sector k at wave height t: the wave rises in even sectors and falls in odd ones. */
  function HueAt(k: int, t: real): real {
    60.0 * if k % 2 == 0 then k as real + t else k as real + 1.0 - t
  }

  /** Every hue of a sector has exactly one height. */
  predicate InSector(k: int, t: real) {
    0 <= k < 6 && if k % 2 == 0 then 0.0 <= t < 1.0 else 0.0 < t <= 1.0
  }

  /** The colour of sector k with these components in descending order. */
  function SectorRgb(k: int, top: real, mid: real, low: real): Rgb
    requires 0 <= k < 6
  {
    match k
    case 0 => Rgb(top, mid, low)
    case 1 => Rgb(mid, top, low)
    case 2 => Rgb(low, top, mid)
    case 3 => Rgb(low, mid, top)
    case 4 => Rgb(mid, low, top)
    case 5 => Rgb(top, low, mid)
  }

  /** Saturation from the strongest and weakest component. */
  function SatOf(top: real, low: real): real
    requires top != 0.0
  {
    (top - low) / top * 100.0
  }

  lemma WaveAt(k: int, t: real)
    requires InSector(k, t)
    ensures 0.0 <= HueAt(k, t) < 360.0 && Sector(HueAt(k, t)) == k && Wave(HueAt(k, t)) == t
  {
    var u := HueAt(k, t) / 60.0;
    FloorIs(u / 2.0, k / 2);
  }

  lemma HueHasSector(hue: real) returns (k: int, t: real)
    requires 0.0 <= hue < 360.0
    ensures InSector(k, t) && hue == HueAt(k, t)
  {
    k := Sector(hue);
    t := if k % 2 == 0 then hue / 60.0 - k as real else k as real + 1.0 - hue / 60.0;
  }

  lemma ToSector(k: int, t: real, sat: real)
    requires InSector(k, t)
    ensures var c := sat / 100.0;
            HueSatToRgb(Hs(HueAt(k, t), sat))
            == SectorRgb(k, 255.0, (Share(c, t) + (1.0 - c)) * 255.0, (1.0 - c) * 255.0)
  {
    WaveAt(k, t);
    hide HueAt, Wave, InSector;
  }

  lemma ModSmall(x: real)
    requires -6.0 < x < 6.0
    ensures Mod(x, 6.0) == x
  {
    FloorIs(if x >= 0.0 then x / 6.0 else -x / 6.0, 0);
  }

  lemma Ratios(top: real, mid: real, low: real, t: real)
    requires low < top && mid - low == (top - low) * t
    ensures (mid - low) / (top - low) == t && (low - mid) / (top - low) == -t
  {
  }

  lemma Scaled(top: real, mid: real, low: real, t: real)
    requires mid - low == (top - low) * t
    ensures mid / 255.0 - low / 255.0 == (top / 255.0 - low / 255.0) * t
  {
  }

  lemma HueOfSector(k: int, top: real, mid: real, low: real, t: real)
    requires InSector(k, t) && low <= mid <= top && low < top && mid - low == (top - low) * t
    requires (mid == top <==> t == 1.0)
    ensures var f, hue := SectorRgb(k, top, mid, low), HueAt(k, t);
            HueOf(f.r, f.g, f.b, top, top - low) == if k == 5 then hue - 360.0 else hue
  {
    Ratios(top, mid, low, t);
    ModSmall(t);
    ModSmall(-t);
    hide Mod;
  }

  lemma Part(whole: real, part: real, t: real)
    requires whole > 0.0 && part == whole * t && 0.0 <= t <= 1.0
    ensures 0.0 <= part <= whole && (part == whole <==> t == 1.0)
  {
    assert part == Share(whole, t);
    if part == whole { assert t == part / whole; }
  }

  lemma Fraction(whole: real, part: real)
    requires whole > 0.0 && 0.0 <= part <= whole
    ensures var t := part / whole;
            part == whole * t && 0.0 <= t <= 1.0 && (t == 0.0 <==> part == 0.0) && (t == 1.0 <==> part == whole)
  {
  }

  lemma Between(top: real, mid: real, low: real, t: real)
    requires low < top && mid - low == (top - low) * t && 0.0 <= t <= 1.0
    ensures low <= mid <= top && (mid == top <==> t == 1.0)
  {
    Part(top - low, mid - low, t);
  }

  /** What is read off a sector colour. */
  lemma FromSector(k: int, top: real, mid: real, low: real, t: real)
    requires InSector(k, t) && 0.0 <= low < top <= 255.0 && mid - low == (top - low) * t
    ensures low <= mid <= top
    ensures RgbToHueSat(SectorRgb(k, top, mid, low)) == Hs(HueAt(k, t), SatOf(top, low))
  {
    hide HueOf, HueAt, SatOf;
    Between(top, mid, low, t);
    var T, M, L := top / 255.0, mid / 255.0, low / 255.0;
    Scaled(top, mid, low, t);
    HueOfSector(k, T, M, L, t);
    SatScaled(top, low);
    HueInCircle(k, t);
  }

  lemma SatScaled(top: real, low: real)
    requires top != 0.0
    ensures (top / 255.0 - low / 255.0) / (top / 255.0) * 100.0 == SatOf(top, low)
  {
    assert top / 255.0 - low / 255.0 == (top - low) / 255.0;
    Cancel(top - low, top, 255.0);
  }

  lemma HueInCircle(k: int, t: real)
    requires InSector(k, t)
    ensures 0.0 <= HueAt(k, t) < 360.0 && (k == 5 ==> HueAt(k, t) >= 300.0)
  {
  }

  lemma Cancel(a: real, b: real, d: real)
    requires b != 0.0 && d != 0.0
    ensures (a / d) / (b / d) == a / b
  {
  }

  // ------------------------------------------------------------------- theorems

  lemma SectorIsColor(k: int, top: real, mid: real, low: real)
    requires 0 <= k < 6 && 0.0 <= low <= mid <= top <= 255.0
    ensures IsColor(SectorRgb(k, top, mid, low)) && Brightest(SectorRgb(k, top, mid, low)) == top
  {
  }

  lemma SaturatedComesBack(k: int, t: real, c: real, mid: real, low: real)
    requires InSector(k, t) && 0.0 < c <= 1.0 && low == (1.0 - c) * 255.0 && mid == (Share(c, t) + (1.0 - c)) * 255.0
    ensures low <= mid <= 255.0
    ensures RgbToHueSat(SectorRgb(k, 255.0, mid, low)) == Hs(HueAt(k, t), c * 100.0)
  {
    hide HueOf, HueAt, RgbToHueSat, SectorRgb, InSector;
    assert mid - low == (255.0 - low) * t;
    FromSector(k, 255.0, mid, low, t);
  }

  lemma GreyHasNoHue(h: Hs)
    requires IsHs(h) && h.sat == 0.0
    ensures RgbToHueSat(HueSatToRgb(h)) == Hs(0.0, 0.0)
  {
    assert Share(0.0, Wave(h.hue)) == 0.0;
    hide Share, Wave, HueOf;
  }

  /** Reading a colour made from hue and saturation gives both back, on every sector boundary
      and with tied maxima too. White has no hue: it comes back as hue 0. */
  lemma HueComesBackIff(h: Hs)
    requires IsHs(h)
    ensures RgbToHueSat(HueSatToRgb(h)) == h <==> h.sat > 0.0 || h.hue == 0.0
  {
    if h.sat == 0.0 {
      GreyHasNoHue(h);
    } else {
      hide HueOf, HueAt, HueSatToRgb, RgbToHueSat, SectorRgb, InSector, Share;
      var k, t := HueHasSector(h.hue);
      ToSector(k, t, h.sat);
      var c := h.sat / 100.0;
      SaturatedComesBack(k, t, c, (Share(c, t) + (1.0 - c)) * 255.0, (1.0 - c) * 255.0);
    }
  }

  /** Every colour that is not grey lies in a sector. */
  lemma ColorHasSector(rgb: Rgb) returns (k: int, top: real, mid: real, low: real, t: real)
    requires IsColor(rgb) && !(rgb.r == rgb.g == rgb.b)
    ensures InSector(k, t) && 0.0 <= low < top <= 255.0 && mid - low == (top - low) * t
    ensures rgb == SectorRgb(k, top, mid, low)
  {
    var r, g, b := rgb.r, rgb.g, rgb.b;
    k := if r >= g && r >= b then (if g < b then 5 else if g == r then 1 else 0)
         else if g >= b then (if b < r then 1 else if b == g then 3 else 2)
         else if g > r then 3 else 4;
    top := if k == 0 || k == 5 then r else if k <= 2 then g else b;
    mid := if k == 0 || k == 3 then g else if k == 1 || k == 4 then r else b;
    low := if k <= 1 then b else if k <= 3 then r else g;
    t := (mid - low) / (top - low);
    Fraction(top - low, mid - low);
  }

  function Times(c: Rgb, s: real): Rgb {
    Rgb(c.r * s, c.g * s, c.b * s)
  }

  function ToFull(brightness: real): real
    requires brightness > 0.0
  {
    255.0 / brightness
  }

  lemma GreyIsUnsaturated(rgb: Rgb)
    requires IsColor(rgb) && rgb.r == rgb.g == rgb.b
    ensures RgbToHueSat(rgb) == Hs(0.0, 0.0)
  {
    hide HueOf;
  }

  lemma UnsaturatedIsWhite()
    ensures HueSatToRgb(Hs(0.0, 0.0)) == Rgb(255.0, 255.0, 255.0)
  {
    ToSector(0, 0.0, 0.0);
    hide HueSatToRgb;
  }

  lemma Brighten(top: real, mid: real, low: real, t: real)
    requires top > 0.0 && mid - low == (top - low) * t
    ensures var c, s := SatOf(top, low) / 100.0, ToFull(top);
            && (1.0 - c) * 255.0 == low * s
            && (Share(c, t) + (1.0 - c)) * 255.0 == mid * s
            && 255.0 == top * s
  {
  }

  lemma BrightenSector(k: int, top: real, mid: real, low: real, t: real)
    requires top > 0.0 && mid - low == (top - low) * t && InSector(k, t)
    ensures HueSatToRgb(Hs(HueAt(k, t), SatOf(top, low))) == Times(SectorRgb(k, top, mid, low), ToFull(top))
  {
    hide HueSatToRgb, HueAt, InSector, Share, SatOf, ToFull;
    ToSector(k, t, SatOf(top, low));
    Brighten(top, mid, low, t);
  }

  /** Converting a colour and back brings it to full brightness and changes nothing else. */
  lemma BackAtFullBrightness(rgb: Rgb)
    requires IsColor(rgb) && Brightest(rgb) > 0.0
    ensures HueSatToRgb(RgbToHueSat(rgb)) == Times(rgb, ToFull(Brightest(rgb)))
  {
    hide HueOf, HueAt, HueSatToRgb, RgbToHueSat, SectorRgb, Share, InSector, SatOf;
    if rgb.r == rgb.g == rgb.b {
      GreyIsUnsaturated(rgb);
      UnsaturatedIsWhite();
    } else {
      hide Times, ToFull, Brightest;
      var k, top, mid, low, t := ColorHasSector(rgb);
      FromSector(k, top, mid, low, t);
      SectorIsColor(k, top, mid, low);
      BrightenSector(k, top, mid, low, t);
    }
  }

  lemma ReadingIsHs(rgb: Rgb)
    requires IsColor(rgb)
    ensures IsHs(RgbToHueSat(rgb))
  {
    if !(rgb.r == rgb.g == rgb.b) {
      var k, top, mid, low, t := ColorHasSector(rgb);
      hide HueOf, RgbToHueSat, SectorRgb, HueAt;
      FromSector(k, top, mid, low, t);
      WaveAt(k, t);
      Fraction(top, top - low);
    }
  }

  /** Exactly the colours of full brightness come back unchanged. */
  lemma ColorComesBackIff(rgb: Rgb)
    requires IsColor(rgb)
    ensures HueSatToRgb(RgbToHueSat(rgb)) == rgb <==> Brightest(rgb) == 255.0
  {
    hide HueSatToRgb, RgbToHueSat, IsHs;
    ReadingIsHs(rgb);
    if Brightest(rgb) == 255.0 {
      BackAtFullBrightness(rgb);
      assert Times(rgb, ToFull(255.0)) == rgb;
    }
  }

  /** Where the primaries lie: red, green and blue at 0, 120 and 240 degrees, at full strength
      and at any saturation over the white they are mixed with. */
  lemma Primaries(sat: real)
    requires 0.0 < sat <= 100.0
    ensures var white := 255.0 - 2.55 * sat;
            && HueSatToRgb(Hs(0.0, sat)) == Rgb(255.0, white, white)
            && HueSatToRgb(Hs(120.0, sat)) == Rgb(white, 255.0, white)
            && HueSatToRgb(Hs(240.0, sat)) == Rgb(white, white, 255.0)
    ensures RgbToHueSat(Rgb(255.0, 0.0, 0.0)) == Hs(0.0, 100.0)
    ensures RgbToHueSat(Rgb(0.0, 255.0, 0.0)) == Hs(120.0, 100.0)
    ensures RgbToHueSat(Rgb(0.0, 0.0, 255.0)) == Hs(240.0, 100.0)
    ensures RgbToHueSat(Rgb(255.0, 255.0, 0.0)) == Hs(60.0, 100.0)
  {
    hide HueSatToRgb, Wave, RgbToHueSat, HueOf;
    PrimaryMade(0, sat);
    PrimaryMade(2, sat);
    PrimaryMade(4, sat);
    PrimariesRead();
  }

  lemma PrimaryMade(k: int, sat: real)
    requires k == 0 || k == 2 || k == 4
    requires 0.0 < sat <= 100.0
    ensures var white := 255.0 - 2.55 * sat;
            HueSatToRgb(Hs(60.0 * k as real, sat)) == SectorRgb(k, 255.0, white, white)
  {
    hide HueSatToRgb, Wave;
    ToSector(k, 0.0, sat);
  }

  lemma PrimariesRead()
    ensures RgbToHueSat(Rgb(255.0, 0.0, 0.0)) == Hs(0.0, 100.0)
    ensures RgbToHueSat(Rgb(0.0, 255.0, 0.0)) == Hs(120.0, 100.0)
    ensures RgbToHueSat(Rgb(0.0, 0.0, 255.0)) == Hs(240.0, 100.0)
    ensures RgbToHueSat(Rgb(255.0, 255.0, 0.0)) == Hs(60.0, 100.0)
  {
    hide RgbToHueSat, HueOf;
    FromSector(0, 255.0, 0.0, 0.0, 0.0);
    FromSector(2, 255.0, 0.0, 0.0, 0.0);
    FromSector(4, 255.0, 0.0, 0.0, 0.0);
    FromSector(1, 255.0, 255.0, 0.0, 1.0);
  }
}
