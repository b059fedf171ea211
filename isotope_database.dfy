/** The isotope records of isotopes_database/isotope_database.py. */
module IsotopeDatabase {

  /** One entry of isotope_data; every field is shown as text. */
  datatype Isotope = Isotope(name: string, symbol: string, halfLife: string, decayMode: string, energy: string)

  const IsotopeData: seq<Isotope> := [
    Isotope("Uranium-235", "U-235", "703.8 million years", "Alpha", "4.679 MeV"),
    Isotope("Uranium-238", "U-238", "4.468 billion years", "Alpha", "4.270 MeV"),
    Isotope("Plutonium-239", "Pu-239", "24,110 years", "Alpha", "5.245 MeV"),
    Isotope("Plutonium-240", "Pu-240", "6,561 years", "Alpha", "5.256 MeV"),
    Isotope("Iodine-131", "I-131", "8 days", "Beta", "0.606 MeV"),
    Isotope("Iodine-129", "I-129", "15.7 million years", "Beta", "0.189 MeV"),
    Isotope("Cesium-137", "Cs-137", "30.17 years", "Beta, Gamma", "1.176 MeV"),
    Isotope("Cesium-134", "Cs-134", "2.06 years", "Beta, Gamma", "2.059 MeV"),
    Isotope("Strontium-90", "Sr-90", "28.8 years", "Beta", "0.546 MeV"),
    Isotope("Radon-222", "Rn-222", "3.8 days", "Alpha", "5.590 MeV"),
    Isotope("Tritium", "H-3", "12.32 years", "Beta", "0.0186 MeV"),
    Isotope("Carbon-14", "C-14", "5,730 years", "Beta", "0.156 MeV"),
    Isotope("Cobalt-60", "Co-60", "5.27 years", "Beta, Gamma", "2.505 MeV"),
    Isotope("Technetium-99m", "Tc-99m", "6 hours", "Isomeric transition (Gamma)", "0.140 MeV"),
    Isotope("Technetium-99", "Tc-99", "211,000 years", "Beta", "0.294 MeV"),
    Isotope("Americium-241", "Am-241", "432.2 years", "Alpha, Gamma", "5.486 MeV"),
    Isotope("Polonium-210", "Po-210", "138 days", "Alpha", "5.407 MeV"),
    Isotope("Thorium-232", "Th-232", "14.05 billion years", "Alpha", "4.081 MeV"),
    Isotope("Radium-226", "Ra-226", "1,600 years", "Alpha", "4.871 MeV"),
    Isotope("Neptunium-237", "Np-237", "2.14 million years", "Alpha", "4.958 MeV")
  ]

  /** Every symbol is one word, as every symbol of the table above is. */
  predicate SymbolsHaveNoSpace(data: seq<Isotope>) {
    forall i :: 0 <= i < |data| ==> ' ' !in data[i].symbol
  }

  /** The table meets it: no symbol has more than six characters, and none is a space. */
  lemma TableSymbolsHaveNoSpace()
    ensures SymbolsHaveNoSpace(IsotopeData)
  {
    forall i | 0 <= i < |IsotopeData| ensures ' ' !in IsotopeData[i].symbol {
      var s := IsotopeData[i].symbol;
      assert |s| <= 6;
      assert forall k :: 0 <= k < |s| ==> s[k] != ' ';
    }
  }
}
