/**
 * The eight unit conversions of decay_math/decay_units.py: years, days and seconds,
 * becquerel and curie, gray and sievert with a radiation weighting factor.
 * Numbers are exact reals; the only failure is Python's float division by zero.
 */
module DecayUnits {
  import opened Wrappers

  const SecondsPerDay: real := 24.0 * 3600.0
  const SecondsPerYear: real := 365.25 * 24.0 * 3600.0
  const BecquerelPerCurie: real := 3.7e10

  /** The default radiation weighting factor of gray_to_sievert and sievert_to_gray. */
  const DefaultWeighting: real := 1.0

  function YearsToSeconds(years: real): real { years * SecondsPerYear }

  function SecondsToYears(seconds: real): real { seconds / SecondsPerYear }

  function DaysToSeconds(days: real): real { days * SecondsPerDay }

  function SecondsToDays(seconds: real): real { seconds / SecondsPerDay }

  function BecquerelToCurie(bq: real): real { bq / BecquerelPerCurie }

  function CurieToBecquerel(ci: real): real { ci * BecquerelPerCurie }

  function GrayToSievert(gray: real, weighting: real): real { gray * weighting }

  /** sievert_to_gray divides by the weighting factor, so a factor of 0 raises ZeroDivisionError. */
  function SievertToGray(sv: real, weighting: real): (r: Result<real>)
    ensures r.Err? <==> weighting == 0.0
    ensures r.Err? ==> r.error == ZeroDivisionError
    ensures r.Ok? ==> r.value * weighting == sv
  {
    if weighting == 0.0 then Err(ZeroDivisionError) else Ok(sv / weighting)
  }

  lemma YearsSecondsRoundTrip(y: real, s: real)
    ensures SecondsToYears(YearsToSeconds(y)) == y
    ensures YearsToSeconds(SecondsToYears(s)) == s
  {
  }

  lemma DaysSecondsRoundTrip(d: real, s: real)
    ensures SecondsToDays(DaysToSeconds(d)) == d
    ensures DaysToSeconds(SecondsToDays(s)) == s
    ensures DaysToSeconds(1.0) == 86400.0
  {
  }

  lemma CurieBecquerelRoundTrip(ci: real, bq: real)
    ensures BecquerelToCurie(CurieToBecquerel(ci)) == ci
    ensures CurieToBecquerel(BecquerelToCurie(bq)) == bq
    ensures CurieToBecquerel(1.0) == 37000000000.0
  {
  }

  /** Gray to sievert and back is the identity for every non-zero weighting factor. */
  lemma GraySievertRoundTrip(g: real, w: real)
    requires w != 0.0
    ensures SievertToGray(GrayToSievert(g, w), w) == Ok(g)
  {
    assert GrayToSievert(g, w) == g * w;
    assert SievertToGray(g * w, w) == Ok(g * w / w);
    assert g * w / w == g;
  }

  /** With a weighting factor of 0 the reverse conversion fails whatever the dose. */
  lemma SievertToGrayZeroWeighting(sv: real)
    ensures SievertToGray(sv, 0.0) == Err(ZeroDivisionError)
  {
  }

  /** With the default weighting both dose conversions leave the number unchanged. */
  lemma DefaultWeightingIdentity(x: real)
    ensures GrayToSievert(x, DefaultWeighting) == x
    ensures SievertToGray(x, DefaultWeighting) == Ok(x)
  {
  }

  /** A Julian year is 365.25 days. */
  lemma YearIsJulianDays(y: real)
    ensures YearsToSeconds(y) == DaysToSeconds(365.25 * y)
  {
  }

  /** Every conversion multiplies by a positive constant: it is linear and strictly increasing. */
  lemma ConversionsLinear(a: real, b: real, c: real)
    ensures YearsToSeconds(c * a + b) == c * YearsToSeconds(a) + YearsToSeconds(b)
    ensures SecondsToYears(c * a + b) == c * SecondsToYears(a) + SecondsToYears(b)
    ensures DaysToSeconds(c * a + b) == c * DaysToSeconds(a) + DaysToSeconds(b)
    ensures SecondsToDays(c * a + b) == c * SecondsToDays(a) + SecondsToDays(b)
    ensures BecquerelToCurie(c * a + b) == c * BecquerelToCurie(a) + BecquerelToCurie(b)
    ensures CurieToBecquerel(c * a + b) == c * CurieToBecquerel(a) + CurieToBecquerel(b)
  {
  }

  lemma ConversionsIncreasing(a: real, b: real)
    requires a < b
    ensures YearsToSeconds(a) < YearsToSeconds(b) && SecondsToYears(a) < SecondsToYears(b)
    ensures DaysToSeconds(a) < DaysToSeconds(b) && SecondsToDays(a) < SecondsToDays(b)
    ensures BecquerelToCurie(a) < BecquerelToCurie(b) && CurieToBecquerel(a) < CurieToBecquerel(b)
  {
  }
}
