# The Nuclear Toolbox, modelled in Dafny

This project models the computational core of The Nuclear Toolbox, an educational Python
toolkit that pairs a Streamlit dashboard with small command-line tools. The model lifts the
pure rules out of the Streamlit pages and the console loops and proves properties of them.
Those rules are:

- the dose bands;
- the unit conversions;
- the shielding lookup;
- the isotope search and comparison;
- the decay-chain graph;
- the reactor-core grid and its k-effective estimate;
- the criticality ratio;
- the exposure calculator.

The project has one Dafny module per core source file:

| module | source file | form |
|---|---|---|
| `DoseCategories` | exposure_risk/dose_categories.py | pure functions |
| `DecayUnits` | decay_math/decay_units.py | pure functions |
| `ShieldingSimulator` | shielding/shielding_simulator.py | pure functions over the factor table |
| `IsotopeSearch` | isotopes_database/isotope_search.py | the list comprehension, as a recursive filter |
| `IsotopeCompare` | isotopes_database/isotope_compare.py | a method with a loop that builds `filtered`, plus the sorted label list |
| `DecayChainViewer` | decay_math/decay_chain_viewer.py | a `Digraph` class whose methods append node and edge statements; `DrawDecayChain` and the console loop `RunViewer` are methods with loops |
| `ReactorDesigner` | reactor_diagram/reactor_designer.py | `FillCore` writes an `array2` in place with nested loops; the summary is a set of functions |
| `CriticalityCalculator` | decay_math/criticality_calculator.py | pure functions |
| `ExposureCalc` | exposure/exposure_calc.py | pure functions, plus the `while True` menu loop as the method `RunExposureCli` |
| `App` | app.py | the nested helpers of the dashboard pages |

Three modules support the others:

- `Wrappers` holds `Option`, `Result` and the Python exceptions the code raises: `ValueError`, `KeyError`, `ZeroDivisionError` and `EOFError`.
- `Strings` models, on ASCII, the `str` operations the code relies on: `lower`, `title`, `strip`, the substring test `in`, `replace` of one character, `split(" ")[0]`, and the order that `sorted()` uses.
- `IsotopeDatabase` holds the isotope records.

Modelling choices:

- Numbers are exact `real`s. `round(x, 3)` in the reactor designer decides the core status, so it is modelled exactly as round-half-even of `x * 1000`.
- The `sqrt` disk test of the reactor grid becomes a comparison of integer squared distances. Both sides are non-negative, so this test is the same.
- A Python exception is an `Err` value. Where the code catches it, the model reports what the screen shows. The criticality page is the case: it shows "Invalid input: division by zero.".
- Console input is a parameter: a sequence of lines. In `ExposureCalc` each line carries the text that `input()` returns and the value that `float()` makes of it, or no value when `float()` raises.
- The two colour tables disagree on the Low band. get_color in app.py says "gold" and exposure_risk/dose_categories.py says "yellow". `App.GetColorFollowsBand` states exactly where they differ.
- Inside its slider ranges, the reactor designer can never show "Supercritical". The estimate is at most 1.0 and the threshold is above 1.05.

## Model

| member | source | states |
|---|---|---|
| DoseCategories.BandOf | exposure_risk/dose_categories.py:12-46 | the if/elif thresholds pick a band whose interval (upper bound included) holds the dose |
| DoseCategories.CategorizeDose | exposure_risk/dose_categories.py:12-46 | the tuple returned is the name, description, icon and colour of the band holding the dose |
| DoseCategories.BandsPartition | exposure_risk/dose_categories.py:12-46 | every dose lies in exactly one of the five bands |
| DoseCategories.DescriptionsDistinct | exposure_risk/dose_categories.py:12-46 | no two bands share a name, an icon or a colour |
| DoseCategories.CategoryNameTellsBand | exposure_risk/dose_categories.py:12-46 | the name returned is a band's name if and only if the dose lies in that band |
| DoseCategories.SmallDosesVeryLow | exposure_risk/dose_categories.py:8-18 | every dose up to 0.1 mSv, zero and negative ones included, is "Very Low" with the green icon and colour |
| DoseCategories.UpperBoundsInclusive | exposure_risk/dose_categories.py:12-39 | 0.1, 10, 100 and 1000 mSv fall in Very Low, Low, Moderate and High respectively |
| DoseCategories.LargeDosesExtreme | exposure_risk/dose_categories.py:40-46 | every dose above 1000 mSv is "Extreme" with the skull icon and "darkred" |
| DoseCategories.CategorizeMonotone | exposure_risk/dose_categories.py:12-46 | a larger dose never gets a less severe band |
| DoseCategories.NameFixesIconAndColor | exposure_risk/dose_categories.py:12-46 | two doses whose category names agree get the same whole tuple |
| DecayUnits.YearsToSeconds | decay_math/decay_units.py:3-4 | seconds in the given years, at 365.25 days a year (ConversionsLinear, ConversionsIncreasing and YearsSecondsRoundTrip state its properties) |
| DecayUnits.SecondsToYears | decay_math/decay_units.py:6-7 | years in the given seconds, the inverse of YearsToSeconds (YearsSecondsRoundTrip) |
| DecayUnits.DaysToSeconds | decay_math/decay_units.py:9-10 | seconds in the given days, 86400 a day (DaysSecondsRoundTrip) |
| DecayUnits.SecondsToDays | decay_math/decay_units.py:12-13 | days in the given seconds, the inverse of DaysToSeconds (DaysSecondsRoundTrip) |
| DecayUnits.BecquerelToCurie | decay_math/decay_units.py:15-16 | curies in the given becquerels, 3.7e10 Bq a curie (CurieBecquerelRoundTrip) |
| DecayUnits.CurieToBecquerel | decay_math/decay_units.py:18-19 | becquerels in the given curies, the inverse of BecquerelToCurie (CurieBecquerelRoundTrip) |
| DecayUnits.GrayToSievert | decay_math/decay_units.py:21-22 | the equivalent dose, the absorbed dose times the weighting; SievertToGray undoes it for a non-zero weighting (GraySievertRoundTrip) |
| DecayUnits.SievertToGray | decay_math/decay_units.py:24-25 | fails with ZeroDivisionError exactly when the weighting is 0; otherwise result times weighting is the dose in Sv |
| DecayUnits.YearsSecondsRoundTrip | decay_math/decay_units.py:3-7 | years to seconds and back, and seconds to years and back, are identities |
| DecayUnits.DaysSecondsRoundTrip | decay_math/decay_units.py:9-13 | days and seconds convert back and forth exactly; a day is 86400 s |
| DecayUnits.CurieBecquerelRoundTrip | decay_math/decay_units.py:15-19 | Ci and Bq convert back and forth exactly; 1 Ci is 3.7e10 Bq |
| DecayUnits.GraySievertRoundTrip | decay_math/decay_units.py:21-25 | with a non-zero weighting, gray to sievert and back returns the dose |
| DecayUnits.SievertToGrayZeroWeighting | decay_math/decay_units.py:24-25 | a zero weighting raises ZeroDivisionError for every dose |
| DecayUnits.DefaultWeightingIdentity | decay_math/decay_units.py:21-25 | with the default weighting 1 both dose conversions keep the number |
| DecayUnits.YearIsJulianDays | decay_math/decay_units.py:3-10 | a year in seconds is 365.25 days in seconds |
| DecayUnits.ConversionsLinear | decay_math/decay_units.py:3-19 | the six time and activity conversions are linear |
| DecayUnits.ConversionsIncreasing | decay_math/decay_units.py:3-19 | the six time and activity conversions are strictly increasing |
| ShieldingSimulator.ShieldedDoseIn | shielding/shielding_simulator.py:17-23 | an unknown title-cased name raises ValueError naming it; otherwise the blocked fraction is the table entry and transmitted plus blocked dose equals the initial dose |
| ShieldingSimulator.CalculateShieldedDose | shielding/shielding_simulator.py:3-23 | calculate_shielded_dose on the module's factor table; LookupIgnoresCase, LeadExample and the lemmas over ShieldedDoseIn with TableFactorsAreFractions state its results |
| ShieldingSimulator.TableFactorsAreFractions | shielding/shielding_simulator.py:3-15 | every blocked fraction in shielding_factors lies between 0 and 1 |
| ShieldingSimulator.LookupIgnoresCase | shielding/shielding_simulator.py:17-21 | material names differing only in letter case give the same result or the same error |
| ShieldingSimulator.TransmittedBounded | shielding/shielding_simulator.py:21-23 | with fractional factors a non-negative dose is never increased: 0 <= transmitted <= initial |
| ShieldingSimulator.MoreBlockingTransmitsLess | shielding/shielding_simulator.py:21-23 | a material with a larger blocked fraction lets less of a non-negative dose through |
| ShieldingSimulator.ZeroDoseTransmitsZero | shielding/shielding_simulator.py:21-23 | a zero initial dose transmits zero through any known material |
| ShieldingSimulator.LeadExample | shielding/shielding_simulator.py:6-23 | "lead" transmits 5 % and blocks 0.95, and "LEAD" behaves as "Lead" |
| IsotopeSearch.Found | isotopes_database/isotope_search.py:10 | the list comprehension: the matching records in database order, each as often as it appears (FoundSound, FoundComplete, FoundInDatabaseOrder, FoundMultiplicity) |
| IsotopeSearch.IsotopeSearcher | isotopes_database/isotope_search.py:7-22 | the results shown are never an empty list: empty results show the no-match warning |
| IsotopeSearch.FoundSound | isotopes_database/isotope_search.py:10 | every record found is in the database and matches the query in its lower-cased name or symbol |
| IsotopeSearch.FoundComplete | isotopes_database/isotope_search.py:10 | every matching record of the database is found |
| IsotopeSearch.FoundInDatabaseOrder | isotopes_database/isotope_search.py:10 | the records found appear in database order |
| IsotopeSearch.FoundMultiplicity | isotopes_database/isotope_search.py:10 | a matching record is found exactly as many times as the database holds it, and a non-matching one never |
| IsotopeSearch.BlankQueryPrompts | isotopes_database/isotope_search.py:7-22 | the start-typing prompt appears exactly when the query is whitespace only |
| IsotopeSearch.SearchScreenContents | isotopes_database/isotope_search.py:9-20 | for a non-blank query the list holds exactly the matching records, and "no match" appears exactly when none matches |
| IsotopeSearch.QueryCaseIgnored | isotopes_database/isotope_search.py:7-10 | queries differing only in letter case give the same screen |
| IsotopeCompare.IsotopeNames | isotopes_database/isotope_compare.py:9 | the options offered: the records' labels, sorted (IsotopeNamesSorted) |
| IsotopeCompare.Labels | isotopes_database/isotope_compare.py:9 | one "symbol (name)" label per record, in record order |
| IsotopeCompare.IsotopeNamesSorted | isotopes_database/isotope_compare.py:9 | the offered labels are sorted and are a permutation of the records' labels |
| IsotopeCompare.FindBySymbol | isotopes_database/isotope_compare.py:18 | finds a database record with the symbol, or None exactly when no record has it |
| IsotopeCompare.FindBySymbolFirst | isotopes_database/isotope_compare.py:18 | the record found is the first with that symbol |
| IsotopeCompare.MatchedRecords | isotopes_database/isotope_compare.py:15-20 | `filtered` after the loop: for each choice in order, the first record with the choice's first token as symbol, if any (MatchedRecordsAppend, MatchedRecordsShorter, OfferedSelectionKept) |
| IsotopeCompare.MapSelection | isotopes_database/isotope_compare.py:15-20 | the loop appends, in selection order, the record each choice's first token names, dropping unmatched choices |
| IsotopeCompare.CompareIsotopes | isotopes_database/isotope_compare.py:13-35 | the prompt appears exactly when nothing is selected; otherwise the table holds the records the choices map back to, at most one row per choice |
| IsotopeCompare.LabelFirstToken | isotopes_database/isotope_compare.py:9-17 | the first space-separated token of a label is its record's symbol when the symbol has no space |
| IsotopeCompare.MatchedRecordsAppend | isotopes_database/isotope_compare.py:15-20 | mapping back distributes over concatenation of selections |
| IsotopeCompare.MatchedRecordsShorter | isotopes_database/isotope_compare.py:15-20 | the comparison table never has more rows than choices |
| IsotopeCompare.OfferedLabelMapsBack | isotopes_database/isotope_compare.py:9-20 | every offered label maps back to exactly one database record with its symbol |
| IsotopeCompare.OfferedSelectionKept | isotopes_database/isotope_compare.py:9-20 | a selection made of offered labels loses no choice: one row per choice |
| IsotopeDatabase.TableSymbolsHaveNoSpace | isotopes_database/isotope_database.py:2-21 | no symbol of the isotope table contains a space |
| IsotopeCompare.TableSelectionKept | isotopes_database/isotope_compare.py:9-20 | on the isotope table itself, every selection of offered labels gives one table row per choice |
| DecayChainViewer.Digraph.constructor | decay_math/decay_chain_viewer.py:15 | a new graph has the given comment and no nodes or edges |
| DecayChainViewer.Digraph.Node | decay_math/decay_chain_viewer.py:18-19 | a node statement is appended and the edges are unchanged |
| DecayChainViewer.Digraph.Edge | decay_math/decay_chain_viewer.py:20 | an edge statement is appended and the nodes are unchanged |
| DecayChainViewer.ChainFilename | decay_math/decay_chain_viewer.py:22 | the output file name: the key with '-' rewritten to '_', then "_decay_chain" (FilenameHasNoHyphen) |
| DecayChainViewer.ChainDrawing | decay_math/decay_chain_viewer.py:9-23 | what draw_decay_chain produces: not found for an unknown key, else the node and edge statements of the chain under its file name (UnknownKeyNotFound, EdgeListAt, NodeCallsCoverChain) |
| DecayChainViewer.DrawDecayChain | decay_math/decay_chain_viewer.py:9-23 | an unknown key reports "not found" and builds nothing; otherwise the graph holds both ends of every consecutive pair and one edge per pair, under the rewritten file name |
| DecayChainViewer.UnknownKeyNotFound | decay_math/decay_chain_viewer.py:10-12 | the not-found path is taken exactly for keys missing from the table |
| DecayChainViewer.EdgeListAt | decay_math/decay_chain_viewer.py:17-20 | a chain of n isotopes gives n - 1 edges, edge i joining isotope i to isotope i + 1 |
| DecayChainViewer.NodeCallsCoverChain | decay_math/decay_chain_viewer.py:17-19 | with two or more isotopes, exactly the chain's isotopes receive node statements |
| DecayChainViewer.SingleIsotopeDrawsNothing | decay_math/decay_chain_viewer.py:17-20 | a one-isotope chain draws no node and no edge |
| DecayChainViewer.FilenameHasNoHyphen | decay_math/decay_chain_viewer.py:22 | the file name has no '-', is the key rewritten character for character followed by "_decay_chain" |
| DecayChainViewer.Uranium238Example | decay_math/decay_chain_viewer.py:3-22 | U-238 is drawn with six edges and saved as U_238_decay_chain |
| DecayChainViewer.ViewerSession | decay_math/decay_chain_viewer.py:30-34 | one drawing per line read before the exit command, each for the stripped line |
| DecayChainViewer.RunViewer | decay_math/decay_chain_viewer.py:26-34 | the input loop draws exactly what the session specification says |
| DecayChainViewer.KeysFrom | decay_math/decay_chain_viewer.py:30-34 | an exit line ends the session; any other line is drawn stripped, then the loop goes on |
| DecayChainViewer.SessionStopsAtExit | decay_math/decay_chain_viewer.py:30-34 | the session draws the k lines before the first exit command, in order, and nothing after it |
| DecayChainViewer.KeysBeforeExit | decay_math/decay_chain_viewer.py:30-34 | the keys drawn are the stripped lines before the first exit command |
| DecayChainViewer.ExitIgnoresCase | decay_math/decay_chain_viewer.py:31-32 | "exit" ends the viewer in any letter case |
| ReactorDesigner.CellValue | reactor_diagram/reactor_designer.py:27-30 | a cell's value after the fill: the fuel effectiveness inside the disk of radius r around the centre, 0 outside (DiskSymmetric, CentreInDisk, FullRodsEmptyCore) |
| ReactorDesigner.FillCore | reactor_diagram/reactor_designer.py:21-30 | the grid has side 2r + 1; each cell within distance r of the centre holds enrichment * (1 - rods/100), every other cell 0 |
| ReactorDesigner.CentreInDisk | reactor_diagram/reactor_designer.py:27-28 | the centre cell is always fuelled |
| ReactorDesigner.DiskInsideGrid | reactor_diagram/reactor_designer.py:21-28 | every point of the disk is a cell of the grid |
| ReactorDesigner.DiskSymmetric | reactor_diagram/reactor_designer.py:27-28 | the fuelled region is symmetric in both axes and under transposition |
| ReactorDesigner.FullRodsEmptyCore | reactor_diagram/reactor_designer.py:29-30 | with rods fully inserted no cell holds fuel value |
| ReactorDesigner.RoundHalfEven | reactor_diagram/reactor_designer.py:41 | Python's round gives an integer within 0.5 of its argument, and the even one when the argument lies halfway |
| ReactorDesigner.Round3 | reactor_diagram/reactor_designer.py:41 | round(x, 3) is a multiple of 0.001 within 0.0005 of x, the even multiple when x lies halfway |
| ReactorDesigner.TieRoundsToEven | reactor_diagram/reactor_designer.py:41-49 | a raw estimate of 0.9495 rounds to 0.950 and is shown Critical |
| ReactorDesigner.KEffEstimate | reactor_diagram/reactor_designer.py:41 | k_eff_estimate: (enrichment / 5) * (1 - rods / 100) rounded to three decimals (SupercriticalUnreachable, FullRodsSubcritical) |
| ReactorDesigner.ClassifyCore | reactor_diagram/reactor_designer.py:44-49 | Subcritical iff k < 0.95, Critical iff 0.95 <= k <= 1.05, Supercritical iff k > 1.05 |
| ReactorDesigner.Round3AtMostOne | reactor_diagram/reactor_designer.py:41 | rounding to three decimals never lifts a value above 1 |
| ReactorDesigner.SupercriticalUnreachable | reactor_diagram/reactor_designer.py:16-49 | within the slider ranges the estimate is at most 1, so "Supercritical" is never shown |
| ReactorDesigner.FullRodsSubcritical | reactor_diagram/reactor_designer.py:17-45 | fully inserted rods give the estimate 0, which is Subcritical |
| CriticalityCalculator.KEff | decay_math/criticality_calculator.py:26 | ZeroDivisionError exactly when sigma_f + sigma_a is 0; otherwise k * (sigma_f + sigma_a) = nu * sigma_f |
| CriticalityCalculator.Classify | decay_math/criticality_calculator.py:29-37 | Subcritical iff k < 1, Critical iff k = 1, Supercritical iff k > 1 |
| CriticalityCalculator.Calculate | decay_math/criticality_calculator.py:25-55 | a zero denominator shows "Invalid input: division by zero." and no status; otherwise the status is the classification of k |
| CriticalityCalculator.StatusPresentationDistinct | decay_math/criticality_calculator.py:29-37 | each status has its own text and graph colour |
| CriticalityCalculator.KEffBounds | decay_math/criticality_calculator.py:26 | with positive inputs 0 < k < nu |
| CriticalityCalculator.KEffLinearInNu | decay_math/criticality_calculator.py:26 | k scales linearly with nu |
| CriticalityCalculator.DefaultInputsSubcritical | decay_math/criticality_calculator.py:20-31 | the page's default inputs give k = 0.91125, Subcritical |
| ExposureCalc.AnnualDose | exposure/exposure_calc.py:3-4 | annual_dose in mSv from hours a day and a rate in μSv/h (AnnualDoseIsYearOfDays, AnnualDoseMonotone, SafeHoursMeetTarget) |
| ExposureCalc.AnnualDoseIsYearOfDays | exposure/exposure_calc.py:3-4 | the annual dose is 365 daily doses of hours * rate / 1000 |
| ExposureCalc.AnnualDoseMonotone | exposure/exposure_calc.py:3-4 | with non-negative inputs the annual dose is non-negative and grows with hours and rate |
| ExposureCalc.CumulativeSeries | exposure/exposure_calc.py:7-8 | 365 entries, the entry for day d being d daily doses |
| ExposureCalc.CumulativeNonDecreasing | exposure/exposure_calc.py:7-8 | a non-negative daily dose gives a non-decreasing curve |
| ExposureCalc.WorkerSeries | exposure/exposure_calc.py:61-63 | 365 entries, the entry for day d being d 365ths of the annual dose |
| ExposureCalc.WorkerSeriesAccumulatesDailyDose | exposure/exposure_calc.py:51-63 | a worker's curve is the cumulative curve of their daily dose and ends at their annual dose |
| ExposureCalc.SafeHours | exposure/exposure_calc.py:37 | the uncaught ZeroDivisionError happens exactly when the rate is 0 |
| ExposureCalc.SafeHoursMeetTarget | exposure/exposure_calc.py:37-40 | working the safe hours every day gives exactly the target annual dose |
| ExposureCalc.SafeHoursPlanReachesTarget | exposure/exposure_calc.py:37-41 | the plotted plan has a daily dose of target / 365 and its curve ends at the target |
| ExposureCalc.CompareWorkers | exposure/exposure_calc.py:57 | A iff a > b, B iff b > a, Neither iff equal |
| ExposureCalc.CompareWorkersSwap | exposure/exposure_calc.py:57 | exchanging the workers exchanges A and B and keeps Neither |
| ExposureCalc.EmergencyDose | exposure/exposure_calc.py:81 | the dose in mSv of one exposure of the given hours at the given rate (EmergencyWarning classifies it) |
| ExposureCalc.EmergencyWarning | exposure/exposure_calc.py:83-88 | high iff dose > 10, caution iff 1 < dose <= 10, within limits iff dose <= 1 |
| ExposureCalc.EmergencyWarningMonotone | exposure/exposure_calc.py:83-88 | a larger dose never gets a milder warning |
| ExposureCalc.EmergencyBoundsStrict | exposure/exposure_calc.py:83-88 | 10 mSv gives the caution and 1 mSv is within limits |
| ExposureCalc.ReadFloats | exposure/exposure_calc.py:35-49 | reading n numbers succeeds exactly when n lines follow and each converts, giving their values in order; otherwise EOFError exactly when the lines run out first, or else the ValueError of the first line that does not convert |
| ExposureCalc.ExposureSession | exposure/exposure_calc.py:23-107 | the outcomes of run_exposure_cli on the console lines, one per pass of the loop (SessionEndsOnlyAtLast, ChoiceFourExits, NumbersReachOption, ShortInputStops) |
| ExposureCalc.MenuPass | exposure/exposure_calc.py:32-107 | a pass that does not end the program always moves forward in the input |
| ExposureCalc.MenuStep | exposure/exposure_calc.py:32-107 | the loop body does what the one-pass specification says |
| ExposureCalc.RunExposureCli | exposure/exposure_calc.py:23-107 | the menu loop produces exactly the session specification's outcomes |
| ExposureCalc.SessionEndsOnlyAtLast | exposure/exposure_calc.py:24-107 | the session's last outcome ends it (exit or an exception) and no earlier one does |
| ExposureCalc.ChoiceFourExits | exposure/exposure_calc.py:102-107 | "4" ends the loop at once; any text other than 1-4 prints the invalid-option message and loops |
| ExposureCalc.ZeroRateStopsSession | exposure/exposure_calc.py:37 | option 1 stops the program with ZeroDivisionError exactly when the rate is 0, and shows the safe hours otherwise |
| ExposureCalc.CompareAndEmergencyContinue | exposure/exposure_calc.py:43-100 | options 2 and 3 always return to the menu once their numbers are read |
| ExposureCalc.NumbersReachOption | exposure/exposure_calc.py:34-81 | a numbered option whose numbers all follow and convert runs on exactly those numbers, and the next pass reads the line after them |
| ExposureCalc.ShortInputStops | exposure/exposure_calc.py:34-81 | input that ends before a numbered option has read its numbers ends the session with EOFError |
| App.AnnualDose | app.py:112-113 | the page's annual dose in mSv (AnnualDoseAgreesWithCli ties it to the command-line formula) |
| App.CancerRisk | app.py:115-116 | the cancer risk, 0.005 per mSv of annual dose (CancerRiskMonotone) |
| App.AnnualDoseAgreesWithCli | app.py:112-113 | the dashboard's annual dose is the command-line calculator's |
| App.CancerRiskMonotone | app.py:115-116 | the risk is non-negative and never falls as a non-negative dose rises |
| App.CategorizeDose | app.py:118-128 | the (label, description) pair is the one of the band holding the dose, on the same inclusive thresholds as the risk module |
| App.LabelsDistinct | app.py:118-128 | no two bands share a label |
| App.LabelIsIconAndName | app.py:118-128 | each page label is the risk module's icon, a space, and the risk module's name |
| App.CategorizeAgreesWithRiskModule | app.py:118-128 | for every dose the page label is the icon and name that the risk module's categorize_dose gives it |
| App.EstimateRisk | app.py:130-133 | what the Estimate Risk button shows: the dose, its risk, and its risk level (SliderRangeCapsRisk) |
| App.SliderRangeCapsRisk | app.py:109-133 | within the sliders the dose is at most 87.6 mSv, the risk at most 0.438, and the level at most Moderate |
| App.GetColor | app.py:171-181 | the bar colour of a dose, on the thresholds of categorize_dose (GetColorFollowsBand, ChartColorsDistinct) |
| App.GetColorFollowsBand | app.py:171-181 | the bar colour follows the band of the dose; it equals the risk module's colour in every band but Low |
| App.ChartColorsDistinct | app.py:171-181 | no two bands share a bar colour |
| App.ConvertUnits | app.py:219-226 | an unknown source unit raises KeyError for it first, then an unknown target; otherwise result * factor(to) = value * factor(from) |
| App.ConvertSameUnit | app.py:219-226 | converting a unit to itself keeps the value |
| App.ConvertRoundTrip | app.py:226 | converting there and back returns the value |
| App.ConversionFactors | app.py:220-226 | 1 Sv is 1000 mSv and 100 rem; Sv and Gy convert one to one |
| App.ConvertLinear | app.py:226 | conversion is linear in the value |
| Strings.TitleOfCaseVariants | shielding/shielding_simulator.py:18 | str.title gives the same result for names that differ only in letter case |
| Strings.StripLeftRemovesSpace | isotopes_database/isotope_search.py:7 | lstrip removes a whitespace prefix and leaves no leading whitespace |
| Strings.StripRightRemovesSpace | isotopes_database/isotope_search.py:7 | rstrip removes a whitespace suffix and leaves no trailing whitespace |
| Strings.StripEmptyIffAllSpace | isotopes_database/isotope_search.py:7-9 | strip leaves nothing exactly when the text is whitespace only |
| Strings.LowerStrip | isotopes_database/isotope_search.py:7 | lower-casing and stripping commute |
| Strings.ContainsIffOccurs | isotopes_database/isotope_search.py:10 | the substring test holds exactly when the pattern occurs at some position |
| Strings.ReplaceChar | decay_math/decay_chain_viewer.py:22 | every '-' is replaced and every other character kept |
| Strings.FirstToken | isotopes_database/isotope_compare.py:17 | split(" ")[0] is the longest space-free prefix |
| Strings.FirstTokenOfWord | isotopes_database/isotope_compare.py:17 | the first token of a space-free word followed by a space is that word |
| Strings.Sort | isotopes_database/isotope_compare.py:9 | sorted() returns an ordered permutation of its input |

## Left out

- Decay formulas: `math.exp`, `math.log` and `np.exp` have no exact counterpart on reals. They appear in decay_math/decay_formulas.py and the decay page of app.py, lines 70-74 and 89-90.
- Floating point: every number is an exact real.
  - IEEE rounding of the intermediate results is not modelled.
  - Round3 rounds the exact value of enrichment / 5 * (1 - rods / 100). Python rounds the double nearest to it.
  - `round(k_eff, 4)` in the criticality page only affects display, so it is not modelled.
- Display: f-string formatting, percentages and the printed messages are not modelled. Only the texts that decide what a screen shows are kept.
- Rendering: the Streamlit widgets and page dispatch, matplotlib plots, and the `imshow` of the core are not modelled. The same goes for the graphviz layout, `dot.render` and its PNG file, and the criticality page's neutron-cycle graph; of that graph only the colour of the k edge is kept.
- Float parsing: `float()` is not modelled. Each console line carries the value `float()` gives it, or none. The message of that ValueError always quotes with single quotes, while Python's repr may use double quotes.
- The unit-converter menu `run_unit_converter` (decay_math/decay_units.py:27-81) is left out. It only reads numbers and prints the eight conversions, which are modelled. src/main.py and the decay_formulas menu are left out for the same reason.
- RunViewer: running out of console lines ends the session quietly. The `EOFError` that `input()` would raise is not modelled. The exposure menu does model that `EOFError`.
- isotope_compare.py:
  - `max_selections=5` is a widget limit, and the model accepts selections of any length.
  - The DataFrames are not modelled. They include the `KeyError` that `set_index("symbol")` raises on an empty `filtered`.
  - The energy parsing `float(i['energy'].split()[0])` and the bar chart are not modelled.
- isotope_search.py: the per-record rendering of the results is not modelled. The screen is modelled as the list of records found.
- Static reference data: radiation/radiation_data.py, exposure_risk/dose_plot.py, and the `dose_data`, radiation-type and `chains` literals in app.py are plain data. The isotope table and the shielding table are modelled as constants.
- Strings: only ASCII is modelled for `lower`, `title` and `isspace`. Python's Unicode case mappings and the Unicode whitespace outside ASCII are not modelled.
- Digraph: only the order of the node and edge statements is modelled. Graphviz merges repeated node statements into one node when it lays out the graph; that merging is not modelled.
