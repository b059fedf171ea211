/**
 * The five-band dose classifier `categorize_dose` (exposure_risk/dose_categories.py).
 * A dose in mSv is mapped to a (name, description, icon, colour) tuple.
 */
module DoseCategories {

  datatype Band = VeryLow | Low | Moderate | High | Extreme

  /** The tuple that categorize_dose returns. */
  datatype DoseCategory = DoseCategory(name: string, description: string, icon: string, color: string)

  /** Position of a band on the severity scale. */
  function Rank(b: Band): nat {
    match b
    case VeryLow => 0
    case Low => 1
    case Moderate => 2
    case High => 3
    case Extreme => 4
  }

  /** The dose interval of each band: upper bounds included, lower bounds excluded. */
  predicate InBand(dose: real, b: Band) {
    match b
    case VeryLow => dose <= 0.1
    case Low => 0.1 < dose <= 10.0
    case Moderate => 10.0 < dose <= 100.0
    case High => 100.0 < dose <= 1000.0
    case Extreme => 1000.0 < dose
  }

  function Name(b: Band): string {
    match b
    case VeryLow => "Very Low"
    case Low => "Low"
    case Moderate => "Moderate"
    case High => "High"
    case Extreme => "Extreme"
  }

  function Description(b: Band): string {
    match b
    case VeryLow => "Typical background radiation or minor diagnostics. No health risk."
    case Low => "Comparable to X-rays or flights. Low long-term risk."
    case Moderate => "Occupational level. Slight increased cancer risk over years."
    case High => "Acute exposure zone. Risk of symptoms, seek evaluation."
    case Extreme => "Dangerous or potentially fatal dose. Emergency situation."
  }

  function Icon(b: Band): string {
    match b
    case VeryLow => "🟢"
    case Low => "🟡"
    case Moderate => "🟠"
    case High => "🔴"
    case Extreme => "☠️"
  }

  function Color(b: Band): string {
    match b
    case VeryLow => "green"
    case Low => "yellow"
    case Moderate => "orange"
    case High => "red"
    case Extreme => "darkred"
  }

  /** The tuple literal belonging to each band. */
  function Describe(b: Band): DoseCategory {
    DoseCategory(Name(b), Description(b), Icon(b), Color(b))
  }

  /** The band whose interval holds a dose. */
  function BandOf(dose: real): (b: Band)
    ensures InBand(dose, b)
  {
    if dose <= 0.1 then VeryLow
    else if dose <= 10.0 then Low
    else if dose <= 100.0 then Moderate
    else if dose <= 1000.0 then High
    else Extreme
  }

  /**
   * categorize_dose: the if/elif chain of categorize_dose, tested in order. Its result is the
   * tuple of the band whose interval holds the dose (BandOf, BandsPartition).
   */
  function CategorizeDose(doseMSv: real): (r: DoseCategory)
    ensures r == Describe(BandOf(doseMSv))
  {
    if doseMSv <= 0.1 then Describe(VeryLow)
    else if doseMSv <= 10.0 then Describe(Low)
    else if doseMSv <= 100.0 then Describe(Moderate)
    else if doseMSv <= 1000.0 then Describe(High)
    else Describe(Extreme)
  }

  /** Every dose lies in exactly one band. */
  lemma BandsPartition(dose: real, b: Band)
    ensures InBand(dose, b) <==> b == BandOf(dose)
  {
  }

  /** Distinct bands differ in name, icon and colour. */
  lemma DescriptionsDistinct(b1: Band, b2: Band)
    requires b1 != b2
    ensures Name(b1) != Name(b2) && Icon(b1) != Icon(b2) && Color(b1) != Color(b2)
  {
    // the first characters already differ
    assert Name(b1)[0] != Name(b2)[0];
    assert Icon(b1)[0] != Icon(b2)[0];
    assert Color(b1)[0] != Color(b2)[0];
  }

  /** The name that categorize_dose returns tells the band of the dose, and no other band has it. */
  lemma CategoryNameTellsBand(doseMSv: real, b: Band)
    ensures CategorizeDose(doseMSv).name == Name(b) <==> InBand(doseMSv, b)
  {
    var actual := BandOf(doseMSv);
    assert CategorizeDose(doseMSv) == Describe(actual);
    if b != actual {
      DescriptionsDistinct(b, actual);
      BandsPartition(doseMSv, b);
    }
  }

  /** Any dose up to 0.1 mSv, zero and negative doses included, is "Very Low" in green. */
  lemma SmallDosesVeryLow(doseMSv: real)
    requires doseMSv <= 0.1
    ensures CategorizeDose(doseMSv).name == "Very Low"
    ensures CategorizeDose(doseMSv).icon == "🟢" && CategorizeDose(doseMSv).color == "green"
  {
  }

  /** The upper bound of each band belongs to that band. */
  lemma UpperBoundsInclusive()
    ensures CategorizeDose(0.1) == Describe(VeryLow)
    ensures CategorizeDose(10.0) == Describe(Low)
    ensures CategorizeDose(100.0) == Describe(Moderate)
    ensures CategorizeDose(1000.0) == Describe(High)
  {
  }

  /** Above 1000 mSv the category is "Extreme", shown with a skull in dark red. */
  lemma LargeDosesExtreme(doseMSv: real)
    requires doseMSv > 1000.0
    ensures CategorizeDose(doseMSv).name == "Extreme"
    ensures CategorizeDose(doseMSv).icon == "☠️" && CategorizeDose(doseMSv).color == "darkred"
  {
  }

  /** A larger dose never falls into a less severe band. */
  lemma CategorizeMonotone(d1: real, d2: real)
    requires d1 <= d2
    ensures Rank(BandOf(d1)) <= Rank(BandOf(d2))
  {
  }

  /** The category name alone fixes the icon and the colour. */
  lemma NameFixesIconAndColor(d1: real, d2: real)
    requires CategorizeDose(d1).name == CategorizeDose(d2).name
    ensures CategorizeDose(d1) == CategorizeDose(d2)
  {
    var b1, b2 := BandOf(d1), BandOf(d2);
    if b1 != b2 {
      DescriptionsDistinct(b1, b2);
    }
  }
}
