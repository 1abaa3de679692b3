/** src/components/SkiaHeatmap.tsx: the red-to-green colour ramp of the
    per-sample discs, and press forwarding. */
module SkiaHeatmap {
  import opened HeatmapTypes

  /** An `rgba(r, g, b, alpha)` colour. */
  datatype Rgba = Rgba(r: int, g: int, b: int, alpha: real)

  const DiscAlpha: real := 0.7

  /** Strength mapped onto `[0, 1]`: -100 dBm and below is 0, -30 dBm and
      above is 1, linear in between. */
  function Normalize(strength: real): (n: real)
    ensures 0.0 <= n <= 1.0
    ensures strength <= -100.0 ==> n == 0.0
    ensures strength >= -30.0 ==> n == 1.0
    ensures -100.0 <= strength <= -30.0 ==> n * 70.0 == strength + 100.0
  {
    var raw := (strength + 100.0) / 70.0;
    var lower := if raw > 0.0 then raw else 0.0;
    if lower < 1.0 then lower else 1.0
  }

  /** Colour of a sample disc. Red and green are complementary: their sum
      loses at most one to rounding down. */
  function GetColor(strength: real): (c: Rgba)
    ensures 0 <= c.r <= 255 && 0 <= c.g <= 255 && c.b == 0
    ensures c.alpha == DiscAlpha
    ensures strength <= -100.0 ==> c == Rgba(255, 0, 0, DiscAlpha)
    ensures strength >= -30.0 ==> c == Rgba(0, 255, 0, DiscAlpha)
    ensures c.g as real <= 255.0 * Normalize(strength) < c.g as real + 1.0
    ensures c.r as real <= 255.0 * (1.0 - Normalize(strength)) < c.r as real + 1.0
    ensures c.r + c.g == 254 || c.r + c.g == 255
  {
    var n := Normalize(strength);
    Rgba((255.0 * (1.0 - n)).Floor, (255.0 * n).Floor, 0, DiscAlpha)
  }

  /** A stronger sample is never redder and never less green. */
  lemma GetColorMonotone(s1: real, s2: real)
    requires s1 <= s2
    ensures GetColor(s1).g <= GetColor(s2).g
    ensures GetColor(s1).r >= GetColor(s2).r
  {
    assert Normalize(s1) <= Normalize(s2);
  }

  /** Every press on the canvas is forwarded with its coordinates. */
  function HandlePress(location: Point): (forwarded: Point)
    ensures forwarded.x == location.x && forwarded.y == location.y
  {
    location
  }
}
