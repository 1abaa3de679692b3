/** src/components/WifiSignalIndicator.tsx: the dBm-to-percentage quality and
    the number of highlighted arcs of the WiFi icon. */
module WifiSignalIndicator {

  /** `x` clamped into `[lo, hi]`. */
  function Clamp(x: real, lo: real, hi: real): real
    requires lo <= hi
  {
    if x < lo then lo else if x > hi then hi else x
  }

  /** Quality percentage of a signal level: full at -50 dBm and above, none
      at -100 dBm and below, linear in between. The pieces meet, so the
      whole is the clamped linear ramp. */
  function SignalQuality(dBm: real): (quality: real)
    ensures 0.0 <= quality <= 100.0
    ensures dBm >= -50.0 ==> quality == 100.0
    ensures dBm <= -100.0 ==> quality == 0.0
    ensures quality == Clamp(2.0 * (dBm + 100.0), 0.0, 100.0)
  {
    if dBm >= -50.0 then 100.0
    else if dBm <= -100.0 then 0.0
    else 2.0 * (dBm + 100.0)
  }

  /** A stronger signal never has a lower quality. */
  lemma SignalQualityMonotone(d1: real, d2: real)
    requires d1 <= d2
    ensures SignalQuality(d1) <= SignalQuality(d2)
  {
  }

  /** Number of highlighted arcs (0 to 3) for a quality percentage. */
  function ActiveArcs(quality: real): (arcs: nat)
    ensures arcs <= 3
    ensures arcs == 3 <==> quality >= 75.0
    ensures arcs >= 2 <==> quality >= 40.0
    ensures arcs >= 1 <==> quality >= 15.0
  {
    if quality >= 75.0 then 3
    else if quality >= 40.0 then 2
    else if quality >= 15.0 then 1
    else 0
  }

  /** The arc count in terms of the signal level itself. */
  lemma ArcsForSignal(dBm: real)
    ensures ActiveArcs(SignalQuality(dBm)) == 3 <==> dBm >= -62.5
    ensures ActiveArcs(SignalQuality(dBm)) >= 2 <==> dBm >= -80.0
    ensures ActiveArcs(SignalQuality(dBm)) >= 1 <==> dBm >= -92.5
  {
  }

  datatype Stroke = ActiveStroke | InactiveStroke

  /** Strokes of the small, medium and large arc, in that order: arc number
      `k + 1` is highlighted when at least `k + 1` arcs are active. */
  function ArcStrokes(activeArcs: nat): (strokes: seq<Stroke>)
    ensures |strokes| == 3
    ensures forall k :: 0 <= k < 3 ==> (strokes[k] == ActiveStroke <==> activeArcs > k)
  {
    [if activeArcs >= 1 then ActiveStroke else InactiveStroke,
     if activeArcs >= 2 then ActiveStroke else InactiveStroke,
     if activeArcs >= 3 then ActiveStroke else InactiveStroke]
  }

  function CountActive(strokes: seq<Stroke>): nat
  {
    if |strokes| == 0 then 0
    else CountActive(strokes[..|strokes| - 1]) + (if strokes[|strokes| - 1] == ActiveStroke then 1 else 0)
  }

  /** The icon highlights exactly `ActiveArcs` arcs, always the innermost
      ones: an arc is highlighted only if every smaller arc is. */
  lemma ArcStrokesMatchCount(dBm: real)
    ensures CountActive(ArcStrokes(ActiveArcs(SignalQuality(dBm)))) == ActiveArcs(SignalQuality(dBm))
    ensures forall k :: 1 <= k < 3 && ArcStrokes(ActiveArcs(SignalQuality(dBm)))[k] == ActiveStroke ==>
              ArcStrokes(ActiveArcs(SignalQuality(dBm)))[k - 1] == ActiveStroke
  {
    var arcs := ActiveArcs(SignalQuality(dBm));
    var strokes := ArcStrokes(arcs);
    assert strokes[..3] == strokes;
    assert strokes[..3][..2] == strokes[..2];
    assert strokes[..2][..1] == strokes[..1];
    assert strokes[..1][..0] == [];
    assert CountActive(strokes[..1]) == if arcs >= 1 then 1 else 0;
    assert CountActive(strokes[..2]) == if arcs >= 2 then 2 else arcs;
  }
}
