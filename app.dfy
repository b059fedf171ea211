/**
 * The pure helpers nested in the Streamlit pages of app.py: the exposure page's
 * annual_dose, cancer_risk and categorize_dose, the dose chart's get_color, and the unit
 * converter's convert_units. Doses are in mSv unless a unit is named.
 */
module App {
  import opened Wrappers
  import DoseCategories
  import ExposureCalc

  // ---------------------------------------------------------------- exposure page

  /** Slider ranges of the exposure page. */
  const MaxHoursPerDay: real := 24.0
  const MaxRate: real := 10.0

  /** annual_dose: `hpd * 365 * rate / 1000`. */
  function AnnualDose(hoursPerDay: real, rate: real): real {
    hoursPerDay * 365.0 * rate / 1000.0
  }

  /** The page's formula is the one of the command-line calculator. */
  lemma AnnualDoseAgreesWithCli(hoursPerDay: real, rate: real)
    ensures AnnualDose(hoursPerDay, rate) == ExposureCalc.AnnualDose(hoursPerDay, rate)
  {
  }

  /** cancer_risk: `dose_mSv * 0.005`, a probability shown as a percentage. */
  function CancerRisk(dose: real): real {
    dose * 0.005
  }

  /** A larger dose never gives a smaller risk, and no dose gives a negative one. */
  lemma CancerRiskMonotone(d1: real, d2: real)
    requires 0.0 <= d1 <= d2
    ensures 0.0 <= CancerRisk(d1) <= CancerRisk(d2)
  {
  }

  /** The (label, description) pair that the page's categorize_dose returns. */
  datatype RiskLevel = RiskLevel(title: string, caption: string)

  function Label(b: DoseCategories.Band): string {
    match b
    case VeryLow => "🟢 Very Low"
    case Low => "🟡 Low"
    case Moderate => "🟠 Moderate"
    case High => "🔴 High"
    case Extreme => "☠️ Extreme"
  }

  function Description(b: DoseCategories.Band): string {
    match b
    case VeryLow => "No health risk."
    case Low => "Low probability of long-term effects."
    case Moderate => "Mild increase in cancer risk."
    case High => "Significant biological damage possible."
    case Extreme => "Potentially lethal dose."
  }

  /**
   * categorize_dose of the exposure page: the same if/elif chain as the risk module's, with
   * shorter texts. Its result is the pair of the band whose interval holds the dose.
   */
  function CategorizeDose(dose: real): (r: RiskLevel)
    ensures r == RiskLevel(Label(DoseCategories.BandOf(dose)), Description(DoseCategories.BandOf(dose)))
  {
    if dose <= 0.1 then RiskLevel(Label(DoseCategories.VeryLow), Description(DoseCategories.VeryLow))
    else if dose <= 10.0 then RiskLevel(Label(DoseCategories.Low), Description(DoseCategories.Low))
    else if dose <= 100.0 then RiskLevel(Label(DoseCategories.Moderate), Description(DoseCategories.Moderate))
    else if dose <= 1000.0 then RiskLevel(Label(DoseCategories.High), Description(DoseCategories.High))
    else RiskLevel(Label(DoseCategories.Extreme), Description(DoseCategories.Extreme))
  }

  /** Each band has its own label. */
  lemma LabelsDistinct(b1: DoseCategories.Band, b2: DoseCategories.Band)
    requires b1 != b2
    ensures Label(b1) != Label(b2)
  {
    assert Label(b1)[0] != Label(b2)[0];
  }

  /** A page label is the risk module's icon and name of the band, joined by a space. */
  lemma LabelIsIconAndName(b: DoseCategories.Band)
    ensures Label(b) == DoseCategories.Icon(b) + " " + DoseCategories.Name(b)
  {
    match b
    case VeryLow => assert "🟢 Very Low" == "🟢" + " " + "Very Low";
    case Low => assert "🟡 Low" == "🟡" + " " + "Low";
    case Moderate => assert "🟠 Moderate" == "🟠" + " " + "Moderate";
    case High => assert "🔴 High" == "🔴" + " " + "High";
    case Extreme => assert "☠️ Extreme" == "☠️" + " " + "Extreme";
  }

  /**
   * The page and the risk module agree: the page labels a dose with the icon and the
   * name that categorize_dose of the risk module gives it.
   */
  lemma CategorizeAgreesWithRiskModule(dose: real)
    ensures CategorizeDose(dose).title ==
      DoseCategories.CategorizeDose(dose).icon + " " + DoseCategories.CategorizeDose(dose).name
  {
    LabelIsIconAndName(DoseCategories.BandOf(dose));
  }

  /** What the "Estimate Risk" button shows for the two slider values. */
  datatype RiskEstimate = RiskEstimate(dose: real, risk: real, level: RiskLevel)

  function EstimateRisk(hours: real, rate: real): RiskEstimate {
    var dose := AnnualDose(hours, rate);
    RiskEstimate(dose, CancerRisk(dose), CategorizeDose(dose))
  }

  /**
   * Inside the slider ranges the annual dose is at most 87.6 mSv, so the page never shows
   * High or Extreme and the risk stays below half a percent.
   */
  lemma SliderRangeCapsRisk(hours: real, rate: real)
    requires 0.0 <= hours <= MaxHoursPerDay && 0.0 <= rate <= MaxRate
    ensures 0.0 <= EstimateRisk(hours, rate).dose <= 87.6
    ensures EstimateRisk(hours, rate).risk <= 0.438
    ensures EstimateRisk(hours, rate).level.title in {"🟢 Very Low", "🟡 Low", "🟠 Moderate"}
  {
    ExposureCalc.AnnualDoseMonotone(hours, rate, MaxHoursPerDay, MaxRate);
    assert ExposureCalc.AnnualDose(MaxHoursPerDay, MaxRate) == 87.6;
  }

  // ---------------------------------------------------------------- dose chart

  /** get_color: the bar colour, on the same thresholds as categorize_dose. */
  function GetColor(dose: real): string {
    if dose <= 0.1 then "green"
    else if dose <= 10.0 then "gold"
    else if dose <= 100.0 then "orange"
    else if dose <= 1000.0 then "red"
    else "darkred"
  }

  function ChartColor(b: DoseCategories.Band): string {
    match b
    case VeryLow => "green"
    case Low => "gold"
    case Moderate => "orange"
    case High => "red"
    case Extreme => "darkred"
  }

  /**
   * The bar colour is the chart colour of the band that categorize_dose gives the dose; it
   * agrees with the risk module's colour in every band but Low, which is "gold" here and
   * "yellow" there.
   */
  lemma GetColorFollowsBand(dose: real)
    ensures GetColor(dose) == ChartColor(DoseCategories.BandOf(dose))
    ensures DoseCategories.BandOf(dose) != DoseCategories.Low <==>
      GetColor(dose) == DoseCategories.CategorizeDose(dose).color
  {
    var b := DoseCategories.BandOf(dose);
    assert DoseCategories.CategorizeDose(dose).color == DoseCategories.Color(b);
    if b == DoseCategories.Low {
      assert GetColor(dose)[0] != DoseCategories.Color(b)[0];
    }
  }

  /** Each band has its own bar colour, so the colour tells the band. */
  lemma ChartColorsDistinct(b1: DoseCategories.Band, b2: DoseCategories.Band)
    requires b1 != b2
    ensures ChartColor(b1) != ChartColor(b2)
  {
    assert ChartColor(b1)[0] != ChartColor(b2)[0] || ChartColor(b1)[1] != ChartColor(b2)[1];
  }

  // ---------------------------------------------------------------- unit converter

  /** The unit factors of convert_units: the value of one unit in Sv. */
  const BaseSv: map<string, real> := map["Sv" := 1.0, "mSv" := 0.001, "rem" := 0.01, "Gy" := 1.0]

  /**
   * convert_units: `val * base_sv[f_unit] / base_sv[t_unit]`. The source unit is looked up
   * first, so an unknown source unit raises its KeyError even when the target is unknown too.
   */
  function ConvertUnits(value: real, fromUnit: string, toUnit: string): (r: Result<real>)
    ensures r.Err? <==> fromUnit !in BaseSv || toUnit !in BaseSv
    ensures fromUnit !in BaseSv ==> r == Err(KeyError(fromUnit))
    ensures fromUnit in BaseSv && toUnit !in BaseSv ==> r == Err(KeyError(toUnit))
    ensures r.Ok? ==> r.value * BaseSv[toUnit] == value * BaseSv[fromUnit]
  {
    if fromUnit !in BaseSv then Err(KeyError(fromUnit))
    else if toUnit !in BaseSv then Err(KeyError(toUnit))
    else Ok(value * BaseSv[fromUnit] / BaseSv[toUnit])
  }

  /** Converting a unit to itself changes nothing. */
  lemma ConvertSameUnit(value: real, unit: string)
    requires unit in BaseSv
    ensures ConvertUnits(value, unit, unit) == Ok(value)
  {
  }

  /** Converting there and back returns the value. */
  lemma ConvertRoundTrip(value: real, fromUnit: string, toUnit: string)
    requires fromUnit in BaseSv && toUnit in BaseSv
    ensures ConvertUnits(ConvertUnits(value, fromUnit, toUnit).value, toUnit, fromUnit) == Ok(value)
  {
    var f, t := BaseSv[fromUnit], BaseSv[toUnit];
    var x := ConvertUnits(value, fromUnit, toUnit).value;
    assert x * t == value * f;
    assert x * t / f == value;
  }

  /** 1 Sv is 1000 mSv and 100 rem; Sv and Gy are taken as equal. */
  lemma ConversionFactors(value: real)
    ensures ConvertUnits(value, "Sv", "mSv") == Ok(value * 1000.0)
    ensures ConvertUnits(value, "Sv", "rem") == Ok(value * 100.0)
    ensures ConvertUnits(value, "Sv", "Gy") == Ok(value)
    ensures ConvertUnits(value, "Gy", "Sv") == Ok(value)
  {
  }

  /** Conversion is linear: converting a scaled value scales the result. */
  lemma ConvertLinear(value: real, c: real, fromUnit: string, toUnit: string)
    requires fromUnit in BaseSv && toUnit in BaseSv
    ensures ConvertUnits(c * value, fromUnit, toUnit).value == c * ConvertUnits(value, fromUnit, toUnit).value
  {
    var f, t := BaseSv[fromUnit], BaseSv[toUnit];
    assert c * value * f / t == c * (value * f / t);
  }
}
