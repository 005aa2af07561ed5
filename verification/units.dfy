/** The unit conversions applied before values are uploaded (src/utils.py).
    The source does no rounding, so the model works over exact reals. */
module Units {

  /** Degrees Fahrenheit per degree Celsius. */
  const FahrenheitPerCelsius: real := 1.8
  /** Fahrenheit reading at the freezing point of water. */
  const FahrenheitAtFreezing: real := 32.0
  /** Inches of mercury per hectopascal. */
  const InHgPerHpa: real := 0.02952998597817832
  /** Millimetres per inch. */
  const MmPerInch: real := 25.4

  /** `celsius_to_farenheight`: its result is the reading whose inverse
      conversion gives back the Celsius value. */
  function CelsiusToFahrenheit(celsius: real): (fahrenheit: real)
    ensures FahrenheitToCelsius(fahrenheit) == celsius
  {
    celsius * FahrenheitPerCelsius + FahrenheitAtFreezing
  }

  /** The inverse conversion, `(f - 32) / 1.8`; the source has no such
      function, it serves as the partner of CelsiusToFahrenheit. */
  function FahrenheitToCelsius(fahrenheit: real): real
  {
    (fahrenheit - FahrenheitAtFreezing) / FahrenheitPerCelsius
  }

  /** `hpa_to_inhg`: a positive multiple of the pressure, so it keeps its sign. */
  function HpaToInhg(hpa: real): (inhg: real)
    ensures inhg / InHgPerHpa == hpa
    ensures hpa > 0.0 <==> inhg > 0.0
    ensures hpa == 0.0 <==> inhg == 0.0
    ensures hpa < 0.0 <==> inhg < 0.0
  {
    hpa * InHgPerHpa
  }

  /** `mm_to_inches`: the length in inches that is `mm` millimetres. */
  function MmToInches(mm: real): (inches: real)
    ensures inches * MmPerInch == mm
  {
    mm / MmPerInch
  }

  /** The two Celsius/Fahrenheit conversions are inverse to each other. */
  lemma FahrenheitRoundTrip(celsius: real, fahrenheit: real)
    ensures FahrenheitToCelsius(CelsiusToFahrenheit(celsius)) == celsius
    ensures CelsiusToFahrenheit(FahrenheitToCelsius(fahrenheit)) == fahrenheit
  {
  }

  /** Fixed readings: freezing and boiling water, and the -40 degree point
      where both scales agree. */
  lemma CelsiusToFahrenheitReferencePoints()
    ensures CelsiusToFahrenheit(0.0) == 32.0
    ensures CelsiusToFahrenheit(100.0) == 212.0
    ensures CelsiusToFahrenheit(-40.0) == -40.0
    ensures forall c :: CelsiusToFahrenheit(c) == c <==> c == -40.0
  {
  }

  /** A warmer Celsius reading is a warmer Fahrenheit reading, and conversely. */
  lemma CelsiusToFahrenheitStrictlyIncreasing(a: real, b: real)
    ensures a < b <==> CelsiusToFahrenheit(a) < CelsiusToFahrenheit(b)
  {
  }

  /** The pressure conversion is linear and monotone. */
  lemma HpaToInhgLinear(p: real, q: real, k: real)
    ensures HpaToInhg(0.0) == 0.0
    ensures HpaToInhg(p + q) == HpaToInhg(p) + HpaToInhg(q)
    ensures HpaToInhg(k * p) == k * HpaToInhg(p)
    ensures p <= q <==> HpaToInhg(p) <= HpaToInhg(q)
  {
  }

  /** One inch is 25.4 mm, nothing is nothing, and rainfall in two parts
      converts to the sum of the converted parts. */
  lemma MmToInchesAdditive(a: real, b: real)
    ensures MmToInches(25.4) == 1.0
    ensures MmToInches(0.0) == 0.0
    ensures MmToInches(a + b) == MmToInches(a) + MmToInches(b)
  {
  }
}
