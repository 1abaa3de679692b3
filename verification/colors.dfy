/** The discrete signal-to-colour banding of src/theme/colors.ts. */
module Colors {

  /** The three band colours (the palette's accent, secondary and error). */
  const StrongColor: string := "#00C781"
  const MediumColor: string := "#33A1FD"
  const WeakColor: string := "#FF4949"

  /** The band boundaries, relative to the normalised strength `(s + 100) / 70`. */
  const StrongThreshold: real := 0.7
  const MediumThreshold: real := 0.4

  /** Colour of a signal strength in dBm. The normalised strength is not
      clamped, so values below -100 dBm fall in the weak band like any other
      weak value. Over the reals the strict thresholds put exactly -51 dBm in
      the medium band and exactly -72 dBm in the weak band. */
  function SignalStrengthColor(strength: real): (c: string)
    ensures c == StrongColor || c == MediumColor || c == WeakColor
    ensures c == StrongColor <==> strength > -51.0
    ensures c == MediumColor <==> -72.0 < strength <= -51.0
    ensures c == WeakColor <==> strength <= -72.0
  {
    var normalized := (strength + 100.0) / 70.0;
    if normalized > StrongThreshold then StrongColor
    else if normalized > MediumThreshold then MediumColor
    else WeakColor
  }

  /** Position of a band colour in the order weak < medium < strong. */
  function Rank(c: string): nat
  {
    if c == StrongColor then 2 else if c == MediumColor then 1 else 0
  }

  /** A stronger signal never gets a weaker band. */
  lemma SignalStrengthColorMonotone(s1: real, s2: real)
    requires s1 <= s2
    ensures Rank(SignalStrengthColor(s1)) <= Rank(SignalStrengthColor(s2))
  {
  }
}
