/**
 * The comparison screen of isotopes_database/isotope_compare.py: records are offered as
 * sorted "symbol (name)" labels, and the labels the user selects are mapped back to
 * records through the symbol before the first space.
 */
module IsotopeCompare {
  import opened Wrappers
  import opened Strings
  import opened IsotopeDatabase

  /** The label `f"{i['symbol']} ({i['name']})"`. */
  function Label(iso: Isotope): string {
    iso.symbol + " (" + iso.name + ")"
  }

  function Labels(data: seq<Isotope>): (r: seq<string>)
    ensures |r| == |data|
    ensures forall i :: 0 <= i < |data| ==> r[i] == Label(data[i])
  {
    seq(|data|, i requires 0 <= i < |data| => Label(data[i]))
  }

  /** isotope_names: the labels of all records, sorted. */
  function IsotopeNames(data: seq<Isotope>): seq<string> {
    Sort(Labels(data))
  }

  /** `next((iso for iso in data if iso['symbol'] == sym), None)` */
  function FindBySymbol(data: seq<Isotope>, sym: string): (r: Option<Isotope>)
    ensures r.Some? ==> r.value in data && r.value.symbol == sym
    ensures r.None? <==> forall i :: 0 <= i < |data| ==> data[i].symbol != sym
  {
    if |data| == 0 then None
    else if data[0].symbol == sym then Some(data[0])
    else
      var r := FindBySymbol(data[1..], sym);
      assert forall i :: 1 <= i < |data| ==> data[i] == data[1..][i - 1];
      r
  }

  /** The first record with the symbol is the one found. */
  lemma {:induction false} FindBySymbolFirst(data: seq<Isotope>, sym: string, k: nat)
    requires k < |data| && data[k].symbol == sym
    requires forall i :: 0 <= i < k ==> data[i].symbol != sym
    ensures FindBySymbol(data, sym) == Some(data[k])
  {
    if k > 0 {
      FindBySymbolFirst(data[1..], sym, k - 1);
    }
  }

  /** The records that a choice maps back to: none or one. */
  function MatchOf(data: seq<Isotope>, choice: string): seq<Isotope> {
    match FindBySymbol(data, FirstToken(choice))
    case Some(iso) => [iso]
    case None => []
  }

  /** `filtered` after the loop over `selected` (specification of MapSelection). */
  function MatchedRecords(selected: seq<string>, data: seq<Isotope>): seq<Isotope> {
    if |selected| == 0 then []
    else MatchedRecords(selected[..|selected| - 1], data) + MatchOf(data, selected[|selected| - 1])
  }

  /** The loop that maps each selected label back to its record, dropping those with no match. */
  method MapSelection(selected: seq<string>, data: seq<Isotope>) returns (filtered: seq<Isotope>)
    ensures filtered == MatchedRecords(selected, data)
    ensures |filtered| <= |selected|
  {
    filtered := [];
    var k := 0;
    while k < |selected|
      invariant 0 <= k <= |selected|
      invariant filtered == MatchedRecords(selected[..k], data)
      invariant |filtered| <= k
    {
      var choice := selected[k];
      var sym := FirstToken(choice);
      var found := FindBySymbol(data, sym);
      if found.Some? {
        filtered := filtered + [found.value];
      }
      assert selected[..k + 1][..k] == selected[..k];
      k := k + 1;
    }
    assert selected[..k] == selected;
  }

  /** What the screen shows: a prompt when nothing is selected, else the table rows. */
  datatype CompareScreen = SelectPrompt | ComparisonTable(rows: seq<Isotope>)

  function CompareIsotopes(selected: seq<string>, data: seq<Isotope>): (r: CompareScreen)
    ensures r.SelectPrompt? <==> |selected| == 0
    ensures r.ComparisonTable? ==> r.rows == MatchedRecords(selected, data) && |r.rows| <= |selected|
  {
    MatchedRecordsShorter(selected, data);
    if |selected| == 0 then SelectPrompt else ComparisonTable(MatchedRecords(selected, data))
  }

  /** One label per record, and the label list is ascending. */
  lemma IsotopeNamesSorted(data: seq<Isotope>)
    ensures Sorted(IsotopeNames(data))
    ensures multiset(IsotopeNames(data)) == multiset(Labels(data))
    ensures |IsotopeNames(data)| == |data|
  {
    calc {
      |IsotopeNames(data)|;
      |multiset(IsotopeNames(data))|;
      |multiset(Labels(data))|;
      |data|;
    }
  }

  /** The first space-separated token of a label is its record's symbol. */
  lemma LabelFirstToken(iso: Isotope)
    requires ' ' !in iso.symbol
    ensures FirstToken(Label(iso)) == iso.symbol
  {
    assert Label(iso) == iso.symbol + (" (" + iso.name + ")");
    FirstTokenOfWord(iso.symbol, " (" + iso.name + ")");
  }

  /** Mapping back keeps the order of the selection: it distributes over concatenation. */
  lemma {:induction false} MatchedRecordsAppend(s1: seq<string>, s2: seq<string>, data: seq<Isotope>)
    ensures MatchedRecords(s1 + s2, data) == MatchedRecords(s1, data) + MatchedRecords(s2, data)
  {
    if |s2| > 0 {
      var s2' := s2[..|s2| - 1];
      assert (s1 + s2)[..|s1 + s2| - 1] == s1 + s2';
      MatchedRecordsAppend(s1, s2', data);
    } else {
      assert s1 + s2 == s1;
    }
  }

  /** A choice with no match is dropped: the result is never longer than the selection. */
  lemma {:induction false} MatchedRecordsShorter(selected: seq<string>, data: seq<Isotope>)
    ensures |MatchedRecords(selected, data)| <= |selected|
  {
    if |selected| > 0 {
      MatchedRecordsShorter(selected[..|selected| - 1], data);
    }
  }

  /**
   * Every label offered on the screen maps back to a record with its symbol (the first
   * such record, by FindBySymbolFirst), provided no symbol contains a space.
   */
  lemma OfferedLabelMapsBack(data: seq<Isotope>, choice: string)
    requires SymbolsHaveNoSpace(data)
    requires choice in IsotopeNames(data)
    ensures |MatchOf(data, choice)| == 1
    ensures MatchOf(data, choice)[0] in data && MatchOf(data, choice)[0].symbol == FirstToken(choice)
  {
    IsotopeNamesSorted(data);
    assert choice in multiset(Labels(data));
    var j :| 0 <= j < |data| && Labels(data)[j] == choice;
    LabelFirstToken(data[j]);
  }

  /** When every choice comes from the offered labels, nothing is dropped. */
  lemma {:induction false} OfferedSelectionKept(data: seq<Isotope>, selected: seq<string>)
    requires SymbolsHaveNoSpace(data)
    requires forall c :: c in selected ==> c in IsotopeNames(data)
    ensures |MatchedRecords(selected, data)| == |selected|
  {
    if |selected| > 0 {
      var last := selected[|selected| - 1];
      assert last in selected;
      OfferedLabelMapsBack(data, last);
      assert forall c :: c in selected[..|selected| - 1] ==> c in selected;
      OfferedSelectionKept(data, selected[..|selected| - 1]);
    }
  }

  /** On the isotope table, a selection of offered labels gives one row per choice. */
  lemma TableSelectionKept(selected: seq<string>)
    requires forall c :: c in selected ==> c in IsotopeNames(IsotopeData)
    ensures |MatchedRecords(selected, IsotopeData)| == |selected|
  {
    TableSymbolsHaveNoSpace();
    OfferedSelectionKept(IsotopeData, selected);
  }
}
