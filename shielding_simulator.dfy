/**
 * The shielding lookup of shielding/shielding_simulator.py: the material name is
 * title-cased, looked up in the table of blocked fractions, and the initial dose is
 * scaled by the fraction that passes through.
 */
module ShieldingSimulator {
  import opened Wrappers
  import opened Strings

  /** shielding_factors: the fraction of the dose that each material blocks. */
  const ShieldingFactors: map<string, real> := map[
    "Paper" := 0.05,
    "Aluminum" := 0.3,
    "Lead" := 0.95,
    "Concrete" := 0.85,
    "Water" := 0.8,
    "Borated Polyethylene" := 0.9,
    "Polycarbonate" := 0.4,
    "Glass" := 0.6,
    "Steel" := 0.88,
    "Air" := 0.01,
    "Graphite" := 0.5
  ]

  /** What calculate_shielded_dose returns: (transmitted_dose, blocked_fraction). */
  datatype Shielded = Shielded(transmitted: real, blocked: real)

  /**
   * calculate_shielded_dose over a factor table. A name that is not a key once
   * title-cased raises ValueError with a message that names the title-cased material.
   */
  function ShieldedDoseIn(factors: map<string, real>, initialDose: real, material: string): (r: Result<Shielded>)
    ensures r.Err? <==> Title(material) !in factors
    ensures r.Err? ==> r.error == ValueError("Material '" + Title(material) + "' not supported.")
    ensures r.Ok? ==> r.value.blocked == factors[Title(material)]
    ensures r.Ok? ==> r.value.transmitted + initialDose * r.value.blocked == initialDose
  {
    var name := Title(material);
    if name !in factors then
      Err(ValueError("Material '" + name + "' not supported."))
    else
      var blockedFraction := factors[name];
      Ok(Shielded(initialDose * (1.0 - blockedFraction), blockedFraction))
  }

  /** calculate_shielded_dose with the module's own table. */
  function CalculateShieldedDose(initialDose: real, material: string): Result<Shielded> {
    ShieldedDoseIn(ShieldingFactors, initialDose, material)
  }

  predicate FactorsAreFractions(factors: map<string, real>) {
    forall m :: m in factors ==> 0.0 <= factors[m] <= 1.0
  }

  /** Every entry of shielding_factors is a fraction between 0 and 1. */
  lemma TableFactorsAreFractions()
    ensures FactorsAreFractions(ShieldingFactors)
  {
    forall m | m in ShieldingFactors ensures 0.0 <= ShieldingFactors[m] <= 1.0 {
    }
  }

  /** Looking a material up ignores the letter case of its name: "lead", "LEAD" and "Lead" agree. */
  lemma LookupIgnoresCase(initialDose: real, m1: string, m2: string)
    requires Lower(m1) == Lower(m2)
    ensures CalculateShieldedDose(initialDose, m1) == CalculateShieldedDose(initialDose, m2)
  {
    TitleOfCaseVariants(m1, m2);
    var r1, r2 := CalculateShieldedDose(initialDose, m1), CalculateShieldedDose(initialDose, m2);
    if r1.Ok? {
      assert r1.value == r2.value;
    }
  }

  /** A non-negative dose is never increased by a shield: 0 <= transmitted <= initial. */
  lemma TransmittedBounded(factors: map<string, real>, initialDose: real, material: string)
    requires FactorsAreFractions(factors)
    requires initialDose >= 0.0
    requires Title(material) in factors
    ensures 0.0 <= ShieldedDoseIn(factors, initialDose, material).value.transmitted <= initialDose
  {
    var passed := 1.0 - factors[Title(material)];
    assert 0.0 <= initialDose * passed by { assert 0.0 <= passed; }
    assert initialDose * passed <= initialDose by {
      assert initialDose * passed == initialDose - initialDose * (1.0 - passed);
      assert 0.0 <= initialDose * (1.0 - passed);
    }
  }

  /** A material that blocks more never lets more of a non-negative dose through. */
  lemma MoreBlockingTransmitsLess(factors: map<string, real>, initialDose: real, m1: string, m2: string)
    requires initialDose >= 0.0
    requires Title(m1) in factors && Title(m2) in factors
    requires factors[Title(m1)] <= factors[Title(m2)]
    ensures ShieldedDoseIn(factors, initialDose, m2).value.transmitted
         <= ShieldedDoseIn(factors, initialDose, m1).value.transmitted
  {
    var f1, f2 := factors[Title(m1)], factors[Title(m2)];
    assert initialDose * (1.0 - f2) <= initialDose * (1.0 - f1);
  }

  /** Nothing comes through when nothing goes in. */
  lemma ZeroDoseTransmitsZero(factors: map<string, real>, material: string)
    requires Title(material) in factors
    ensures ShieldedDoseIn(factors, 0.0, material).value.transmitted == 0.0
  {
  }

  /** For instance, lead in any letter case blocks 95 %. */
  lemma LeadExample(initialDose: real)
    ensures CalculateShieldedDose(initialDose, "lead") == Ok(Shielded(initialDose * 0.05, 0.95))
    ensures CalculateShieldedDose(initialDose, "LEAD") == CalculateShieldedDose(initialDose, "Lead")
  {
    assert Title("lead") == "Lead" by { TitleAt("lead", 0); TitleAt("lead", 1); TitleAt("lead", 2); TitleAt("lead", 3); }
    LookupIgnoresCase(initialDose, "LEAD", "Lead");
  }
}
