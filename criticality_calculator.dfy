/**
 * The criticality calculator of decay_math/criticality_calculator.py:
 * k_eff = nu * sigma_f / (sigma_f + sigma_a), classified against 1. A zero denominator
 * raises ZeroDivisionError, which the screen catches and reports instead of a status.
 */
module CriticalityCalculator {
  import opened Wrappers

  datatype Status = Subcritical | Critical | Supercritical

  /** The status text shown for each outcome. */
  function StatusLabel(s: Status): string {
    match s
    case Subcritical => "🔵 Subcritical"
    case Critical => "🟢 Critical"
    case Supercritical => "🔴 Supercritical"
  }

  /** The colour of the k edge in the neutron-cycle graph. */
  function StatusColor(s: Status): string {
    match s
    case Subcritical => "blue"
    case Critical => "green"
    case Supercritical => "red"
  }

  /** `(nu * sigma_f) / (sigma_f + sigma_a)` */
  function KEff(nu: real, sigmaF: real, sigmaA: real): (r: Result<real>)
    ensures r.Err? <==> sigmaF + sigmaA == 0.0
    ensures r.Err? ==> r.error == ZeroDivisionError
    ensures r.Ok? ==> r.value * (sigmaF + sigmaA) == nu * sigmaF
  {
    if sigmaF + sigmaA == 0.0 then Err(ZeroDivisionError)
    else Ok((nu * sigmaF) / (sigmaF + sigmaA))
  }

  /** The if/elif status chain. */
  function Classify(k: real): (s: Status)
    ensures s == Subcritical <==> k < 1.0
    ensures s == Critical <==> k == 1.0
    ensures s == Supercritical <==> k > 1.0
  {
    if k < 1.0 then Subcritical
    else if k == 1.0 then Critical
    else Supercritical
  }

  /** What the screen reports: the k value with its status, or the division error message. */
  datatype Report = Computed(k: real, status: Status) | DivisionError(message: string)

  function Calculate(nu: real, sigmaF: real, sigmaA: real): (r: Report)
    ensures r.DivisionError? <==> sigmaF + sigmaA == 0.0
    ensures r.DivisionError? ==> r.message == "Invalid input: division by zero."
    ensures r.Computed? ==> r.k * (sigmaF + sigmaA) == nu * sigmaF && r.status == Classify(r.k)
  {
    match KEff(nu, sigmaF, sigmaA)
    case Ok(k) => Computed(k, Classify(k))
    case Err(_) => DivisionError("Invalid input: division by zero.")
  }

  /** Each status has its own label and colour. */
  lemma StatusPresentationDistinct(s1: Status, s2: Status)
    requires s1 != s2
    ensures StatusColor(s1) != StatusColor(s2)
    ensures StatusLabel(s1) != StatusLabel(s2)
  {
    assert StatusColor(s1)[0] != StatusColor(s2)[0];
    assert StatusLabel(s1)[0] != StatusLabel(s2)[0];
  }

  /** With positive inputs the factor lies strictly between 0 and nu. */
  lemma KEffBounds(nu: real, sigmaF: real, sigmaA: real)
    requires nu > 0.0 && sigmaF > 0.0 && sigmaA > 0.0
    ensures KEff(nu, sigmaF, sigmaA).Ok?
    ensures 0.0 < KEff(nu, sigmaF, sigmaA).value < nu
  {
    var k := KEff(nu, sigmaF, sigmaA).value;
    var d := sigmaF + sigmaA;
    assert k * d == nu * sigmaF;
    assert nu * sigmaF < nu * d;
    assert 0.0 < nu * sigmaF;
  }

  /** The factor is linear in nu. */
  lemma KEffLinearInNu(nu: real, c: real, sigmaF: real, sigmaA: real)
    requires sigmaF + sigmaA != 0.0
    ensures KEff(c * nu, sigmaF, sigmaA).value == c * KEff(nu, sigmaF, sigmaA).value
  {
    var d := sigmaF + sigmaA;
    assert (c * nu * sigmaF) / d == c * ((nu * sigmaF) / d);
  }

  /** With the screen's default inputs the core is subcritical. */
  lemma DefaultInputsSubcritical()
    ensures Calculate(2.43, 0.12, 0.20).Computed?
    ensures Calculate(2.43, 0.12, 0.20).status == Subcritical
  {
    assert KEff(2.43, 0.12, 0.20) == Ok(0.91125);
  }
}
