/** The glucose colour of the first desktop interface, `get_glucose_color` in
    src/ui/theme.py: red at or below the low threshold, orange from three above the high
    threshold, amber from the high threshold, green otherwise. */
module FletTheme {

  const GlucoseLow := "#ff6b6b"
  const GlucoseNormal := "#4ade80"
  const GlucoseHigh := "#fbbf24"
  const GlucoseVeryHigh := "#f97316"

  const DefaultLow := 3.9
  const DefaultHigh := 10.0

  /** The tests in their order: low first, then very high, then high. */
  function GlucoseColor(g: real, low: real, high: real): (c: string)
    ensures c == GlucoseLow <==> g <= low
    ensures c == GlucoseVeryHigh <==> !(g <= low) && g >= high + 3.0
    ensures c == GlucoseHigh <==> !(g <= low) && high <= g < high + 3.0
    ensures c == GlucoseNormal <==> low < g < high
  {
    if g <= low then GlucoseLow
    else if g >= high + 3.0 then GlucoseVeryHigh
    else if g >= high then GlucoseHigh
    else GlucoseNormal
  }

  /** With the default thresholds: red to 3.9, green below 10.0, amber below 13.0, orange
      from 13.0. */
  lemma DefaultBands(g: real)
    ensures GlucoseColor(g, DefaultLow, DefaultHigh) == GlucoseLow <==> g <= 3.9
    ensures GlucoseColor(g, DefaultLow, DefaultHigh) == GlucoseNormal <==> 3.9 < g < 10.0
    ensures GlucoseColor(g, DefaultLow, DefaultHigh) == GlucoseHigh <==> 10.0 <= g < 13.0
    ensures GlucoseColor(g, DefaultLow, DefaultHigh) == GlucoseVeryHigh <==> g >= 13.0
  {
  }

  /** The colours ordered from low to very high. */
  function Rank(c: string): int {
    if c == GlucoseLow then 0 else if c == GlucoseNormal then 1 else if c == GlucoseHigh then 2 else 3
  }

  /** When the low threshold is below the high one, a higher reading never gets a colour
      further down the scale. */
  lemma ColorMonotone(g1: real, g2: real, low: real, high: real)
    requires low < high && g1 <= g2
    ensures Rank(GlucoseColor(g1, low, high)) <= Rank(GlucoseColor(g2, low, high))
  {
  }
}
