/** The glucose colour of the native desktop interface, `get_glucose_color` in
    src/ui_qt/theme.py: three colours, low checked first. */
module QtTheme {
  import FletTheme

  const Red := "#cc0000"
  const Orange := "#cc6600"
  const Green := "#006600"

  const DefaultLow := 3.9
  const DefaultHigh := 10.0

  function GlucoseColor(g: real, low: real, high: real): (c: string)
    ensures c == Red <==> g <= low
    ensures c == Orange <==> !(g <= low) && g >= high
    ensures c == Green <==> low < g < high
    ensures c == Red || c == Orange || c == Green
  {
    if g <= low then Red
    else if g >= high then Orange
    else Green
  }

  /** The two interfaces colour the same readings as low and as normal, and the native one
      shows orange for exactly the readings the other shows amber or orange. */
  lemma AgreesWithFlet(g: real, low: real, high: real)
    ensures GlucoseColor(g, low, high) == Red <==> FletTheme.GlucoseColor(g, low, high) == FletTheme.GlucoseLow
    ensures GlucoseColor(g, low, high) == Green <==> FletTheme.GlucoseColor(g, low, high) == FletTheme.GlucoseNormal
    ensures GlucoseColor(g, low, high) == Orange <==>
      FletTheme.GlucoseColor(g, low, high) in {FletTheme.GlucoseHigh, FletTheme.GlucoseVeryHigh}
  {
  }
}
