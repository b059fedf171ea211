/**
 * The exposure calculator of exposure/exposure_calc.py: the annual-dose formula, the
 * cumulative dose series that is plotted, the safe-hours formula, the comparison of two
 * workers, the emergency-dose warnings, and the menu loop that drives them from the console.
 * Doses are in mSv, dose rates in μSv/h.
 */
module ExposureCalc {
  import opened Wrappers

  const DaysPerYear: real := 365.0

  /** annual_dose: `hours_per_day * 365 * rate_uSv_per_hour / 1000` (mSv). */
  function AnnualDose(hoursPerDay: real, rate: real): real {
    hoursPerDay * 365.0 * rate / 1000.0
  }

  /** The dose of a year is 365 times the dose of a day. */
  lemma AnnualDoseIsYearOfDays(hoursPerDay: real, rate: real)
    ensures AnnualDose(hoursPerDay, rate) == DaysPerYear * (hoursPerDay * rate / 1000.0)
  {
  }

  /** With non-negative inputs, more hours or a higher rate never lower the annual dose. */
  lemma AnnualDoseMonotone(h1: real, r1: real, h2: real, r2: real)
    requires 0.0 <= h1 <= h2 && 0.0 <= r1 <= r2
    ensures 0.0 <= AnnualDose(h1, r1) <= AnnualDose(h2, r2)
  {
    assert h1 * r1 <= h2 * r1 by { assert (h2 - h1) * r1 >= 0.0; }
    assert h2 * r1 <= h2 * r2 by { assert h2 * (r2 - r1) >= 0.0; }
    assert 0.0 <= h1 * r1;
  }

  // ---------------------------------------------------------------- the plotted series

  /** `[daily_mSv * d for d in range(1, 366)]`: entry d - 1 is the dose after day d. */
  function CumulativeSeries(dailyDose: real): (s: seq<real>)
    ensures |s| == 365
    ensures forall i :: 0 <= i < 365 ==> s[i] == dailyDose * (i + 1) as real
  {
    seq(365, i requires 0 <= i < 365 => dailyDose * (i + 1) as real)
  }

  /** A non-negative daily dose accumulates: the series never decreases. */
  lemma CumulativeNonDecreasing(dailyDose: real, i: int, j: int)
    requires dailyDose >= 0.0
    requires 0 <= i <= j < 365
    ensures CumulativeSeries(dailyDose)[i] <= CumulativeSeries(dailyDose)[j]
  {
    var s := CumulativeSeries(dailyDose);
    assert s[j] - s[i] == dailyDose * (j - i) as real;
  }

  /** `[dose / 365 * d for d in range(1, 366)]`: a worker's annual dose spread over the days. */
  function WorkerSeries(annual: real): (s: seq<real>)
    ensures |s| == 365
    ensures forall i :: 0 <= i < 365 ==> s[i] == annual / DaysPerYear * (i + 1) as real
  {
    seq(365, i requires 0 <= i < 365 => annual / DaysPerYear * (i + 1) as real)
  }

  /** A worker's curve is the cumulative series of their daily dose, and it ends at the annual dose. */
  lemma WorkerSeriesAccumulatesDailyDose(hoursPerDay: real, rate: real)
    ensures WorkerSeries(AnnualDose(hoursPerDay, rate)) == CumulativeSeries(hoursPerDay * rate / 1000.0)
    ensures WorkerSeries(AnnualDose(hoursPerDay, rate))[364] == AnnualDose(hoursPerDay, rate)
  {
    var a, c := WorkerSeries(AnnualDose(hoursPerDay, rate)), CumulativeSeries(hoursPerDay * rate / 1000.0);
    assert AnnualDose(hoursPerDay, rate) / DaysPerYear == hoursPerDay * rate / 1000.0;
    assert forall i :: 0 <= i < 365 ==> a[i] == c[i];
  }

  // ---------------------------------------------------------------- option 1: safe hours

  /** `(target_mSv * 1000) / (365 * rate)`; a zero rate raises ZeroDivisionError, which is not caught. */
  function SafeHours(target: real, rate: real): (r: Result<real>)
    ensures r.Err? <==> rate == 0.0
    ensures r.Err? ==> r.error == ZeroDivisionError
  {
    if 365.0 * rate == 0.0 then Err(ZeroDivisionError) else Ok((target * 1000.0) / (365.0 * rate))
  }

  /** `safe_hours * rate / 1000`: the daily dose of working the safe hours. */
  function DailyDose(safeHours: real, rate: real): real {
    safeHours * rate / 1000.0
  }

  /** Working the safe hours every day gives exactly the target annual dose. */
  lemma SafeHoursMeetTarget(target: real, rate: real)
    requires rate != 0.0
    ensures AnnualDose(SafeHours(target, rate).value, rate) == target
  {
    var h := SafeHours(target, rate).value;
    assert h * (365.0 * rate) == target * 1000.0;
    assert AnnualDose(h, rate) == h * (365.0 * rate) / 1000.0;
  }

  /** The plotted plan: the daily dose is a 365th of the target, and the curve ends at the target. */
  lemma SafeHoursPlanReachesTarget(target: real, rate: real)
    requires rate != 0.0
    ensures DailyDose(SafeHours(target, rate).value, rate) == target / DaysPerYear
    ensures CumulativeSeries(DailyDose(SafeHours(target, rate).value, rate))[364] == target
  {
    var h := SafeHours(target, rate).value;
    assert h * (365.0 * rate) == target * 1000.0;
    assert DailyDose(h, rate) * 365.0 == target;
  }

  // ---------------------------------------------------------------- option 2: two workers

  datatype Winner = WorkerA | WorkerB | Neither

  /** `"A" if a_dose > b_dose else "B" if b_dose > a_dose else "Neither"` */
  function CompareWorkers(aDose: real, bDose: real): (w: Winner)
    ensures w == WorkerA <==> aDose > bDose
    ensures w == WorkerB <==> bDose > aDose
    ensures w == Neither <==> aDose == bDose
  {
    if aDose > bDose then WorkerA else if bDose > aDose then WorkerB else Neither
  }

  function Swapped(w: Winner): Winner {
    match w
    case WorkerA => WorkerB
    case WorkerB => WorkerA
    case Neither => Neither
  }

  /** Exchanging the two workers exchanges the verdict. */
  lemma CompareWorkersSwap(aDose: real, bDose: real)
    ensures CompareWorkers(bDose, aDose) == Swapped(CompareWorkers(aDose, bDose))
  {
  }

  // ---------------------------------------------------------------- option 3: emergency dose

  /** `hrs * rate / 1000` (mSv). */
  function EmergencyDose(hours: real, rate: real): real {
    hours * rate / 1000.0
  }

  datatype Warning = HighDose | AbovePublicLimit | WithinLimits

  /** The if/elif chain on the emergency dose; both bounds are strict. */
  function EmergencyWarning(dose: real): (w: Warning)
    ensures w == HighDose <==> dose > 10.0
    ensures w == AbovePublicLimit <==> 1.0 < dose <= 10.0
    ensures w == WithinLimits <==> dose <= 1.0
  {
    if dose > 10.0 then HighDose else if dose > 1.0 then AbovePublicLimit else WithinLimits
  }

  function Severity(w: Warning): nat {
    match w
    case WithinLimits => 0
    case AbovePublicLimit => 1
    case HighDose => 2
  }

  /** A larger dose never gets a milder warning. */
  lemma EmergencyWarningMonotone(d1: real, d2: real)
    requires d1 <= d2
    ensures Severity(EmergencyWarning(d1)) <= Severity(EmergencyWarning(d2))
  {
  }

  /** The bounds themselves fall on the milder side: 10 mSv is a caution, 1 mSv is within limits. */
  lemma EmergencyBoundsStrict()
    ensures EmergencyWarning(10.0) == AbovePublicLimit
    ensures EmergencyWarning(1.0) == WithinLimits
  {
  }

  // ---------------------------------------------------------------- the menu loop

  /**
   * One line of console input: its text, as `input()` returns it, and what `float()`
   * makes of it (None when float() raises ValueError). Parsing floats is not modelled.
   */
  datatype ConsoleLine = ConsoleLine(text: string, asFloat: Option<real>)

  /** What one pass of the menu loop ends with. */
  datatype Outcome =
    | SafeHoursShown(safeHours: real, cumulative: seq<real>)
    | WorkersCompared(aDose: real, bDose: real, winner: Winner, doseA: seq<real>, doseB: seq<real>)
    | EmergencyShown(dose: real, warning: Warning)
    | InvalidOption                 // "Invalid option. Please select 1–4."
    | Exited                        // "Exiting calculator." and break
    | Stopped(error: PyError)       // an exception escapes and ends the program

  predicate Final(o: Outcome) {
    o.Exited? || o.Stopped?
  }

  /** Every line from `pos` on that the `n` reads reach converts to a number. */
  predicate Converts(lines: seq<ConsoleLine>, pos: nat, n: nat) {
    forall i :: pos <= i < pos + n && i < |lines| ==> lines[i].asFloat.Some?
  }

  /** The ValueError that `float()` raises on a line that is not a number. */
  function ConversionError(text: string): PyError {
    ValueError("could not convert string to float: '" + text + "'")
  }

  /**
   * `n` successive `float(input(...))` calls starting at line `pos`. The reads succeed
   * exactly when `n` lines follow and each converts. Otherwise the first failing read raises:
   * EOFError when the lines run out before any of them fails to convert, or else the
   * ValueError of the first line that does not convert.
   */
  function ReadFloats(lines: seq<ConsoleLine>, pos: nat, n: nat): (r: Result<seq<real>>)
    ensures r.Ok? <==> n == 0 || (pos + n <= |lines| && Converts(lines, pos, n))
    ensures r.Ok? ==> |r.value| == n
    ensures r.Ok? ==> forall i :: 0 <= i < n ==> lines[pos + i].asFloat == Some(r.value[i])
    ensures r == Err(EOFError) <==> n > 0 && |lines| < pos + n && Converts(lines, pos, n)
    ensures forall k :: pos <= k < pos + n && k < |lines| && lines[k].asFloat.None? && Converts(lines, pos, k - pos) ==>
      r == Err(ConversionError(lines[k].text))
    ensures r.Err? ==> r.error == EOFError || r.error.ValueError?
    decreases n
  {
    if n == 0 then Ok([])
    else if pos >= |lines| then Err(EOFError)
    else match lines[pos].asFloat
      case None => Err(ConversionError(lines[pos].text))
      case Some(x) =>
        match ReadFloats(lines, pos + 1, n - 1)
        case Err(e) => Err(e)
        case Ok(rest) => Ok([x] + rest)
  }

  /** Option 1 on its two numbers. */
  function SafeHoursMode(v: seq<real>): Outcome
    requires |v| == 2
  {
    match SafeHours(v[0], v[1])
    case Err(e) => Stopped(e)
    case Ok(h) => SafeHoursShown(h, CumulativeSeries(DailyDose(h, v[1])))
  }

  /** Option 2 on its four numbers. */
  function CompareMode(v: seq<real>): Outcome
    requires |v| == 4
  {
    var aDose, bDose := AnnualDose(v[0], v[1]), AnnualDose(v[2], v[3]);
    WorkersCompared(aDose, bDose, CompareWorkers(aDose, bDose), WorkerSeries(aDose), WorkerSeries(bDose))
  }

  /** Option 3 on its two numbers. */
  function EmergencyMode(v: seq<real>): Outcome
    requires |v| == 2
  {
    var dose := EmergencyDose(v[0], v[1]);
    EmergencyShown(dose, EmergencyWarning(dose))
  }

  /** The numbers each option reads after the choice. */
  function Arity(choice: string): nat {
    if choice == "2" then 4 else if choice == "1" || choice == "3" then 2 else 0
  }

  /** One menu pass for a numbered option, given the numbers it read. */
  function RunOption(choice: string, v: seq<real>): Outcome
    requires choice == "1" || choice == "2" || choice == "3"
    requires |v| == Arity(choice)
  {
    if choice == "1" then SafeHoursMode(v) else if choice == "2" then CompareMode(v) else EmergencyMode(v)
  }

  /**
   * One pass of the menu loop from console line `pos`: what it ends with, and the line the
   * next pass reads its choice from. Only a final outcome leaves nothing more to read.
   */
  function MenuPass(lines: seq<ConsoleLine>, pos: nat): (r: (Outcome, nat))
    ensures !Final(r.0) ==> pos < r.1 <= |lines|
  {
    if pos >= |lines| then (Stopped(EOFError), pos)
    else
      var choice := lines[pos].text;
      if choice == "4" then (Exited, pos + 1)
      else if choice == "1" || choice == "2" || choice == "3" then
        match ReadFloats(lines, pos + 1, Arity(choice))
        case Err(e) => (Stopped(e), pos + 1)
        case Ok(v) => (RunOption(choice, v), pos + 1 + Arity(choice))
      else (InvalidOption, pos + 1)
  }

  /** What run_exposure_cli does from console line `pos` on (specification of RunExposureCli). */
  function ExposureSession(lines: seq<ConsoleLine>, pos: nat): seq<Outcome>
    decreases |lines| - pos
  {
    var (o, next) := MenuPass(lines, pos);
    if Final(o) then [o] else [o] + ExposureSession(lines, next)
  }

  /**
   * The body of the menu loop: read the choice, then run the option it names. It only
   * carries MenuPass into the loop of RunExposureCli, one pass at a time.
   */
  method MenuStep(lines: seq<ConsoleLine>, pos: nat) returns (o: Outcome, next: nat)
    ensures (o, next) == MenuPass(lines, pos)
  {
    if pos >= |lines| {
      return Stopped(EOFError), pos;
    }
    var choice := lines[pos].text;
    if choice == "4" {
      o, next := Exited, pos + 1;
    } else if choice == "1" || choice == "2" || choice == "3" {
      var read := ReadFloats(lines, pos + 1, Arity(choice));
      if read.Err? {
        o, next := Stopped(read.error), pos + 1;
      } else {
        o, next := RunOption(choice, read.value), pos + 1 + Arity(choice);
      }
    } else {
      o, next := InvalidOption, pos + 1;
    }
  }

  /** run_exposure_cli: the `while True` menu loop over the console lines. */
  method RunExposureCli(lines: seq<ConsoleLine>) returns (outcomes: seq<Outcome>)
    ensures outcomes == ExposureSession(lines, 0)
  {
    outcomes := [];
    var pos := 0;
    while true
      invariant pos <= |lines|
      invariant ExposureSession(lines, 0) == outcomes + ExposureSession(lines, pos)
      decreases |lines| - pos
    {
      var o, next := MenuStep(lines, pos);
      if Final(o) {
        outcomes := outcomes + [o];
        return;
      }
      var rest := ExposureSession(lines, next);
      assert ExposureSession(lines, pos) == [o] + rest;
      assert outcomes + ([o] + rest) == (outcomes + [o]) + rest;
      outcomes := outcomes + [o];
      pos := next;
    }
  }

  /** The session reports one outcome per pass: only the last pass ends the loop, and it does. */
  lemma {:induction false} SessionEndsOnlyAtLast(lines: seq<ConsoleLine>, pos: nat)
    ensures |ExposureSession(lines, pos)| > 0
    ensures Final(ExposureSession(lines, pos)[|ExposureSession(lines, pos)| - 1])
    ensures forall i :: 0 <= i < |ExposureSession(lines, pos)| - 1 ==> !Final(ExposureSession(lines, pos)[i])
    decreases |lines| - pos
  {
    var (o, next) := MenuPass(lines, pos);
    if !Final(o) {
      SessionEndsOnlyAtLast(lines, next);
      var rest := ExposureSession(lines, next);
      assert ExposureSession(lines, pos) == [o] + rest;
      assert forall i :: 1 <= i < |rest| + 1 ==> ([o] + rest)[i] == rest[i - 1];
    }
  }

  /** Choice "4" ends the loop at once; any other unlisted text reports and asks again. */
  lemma ChoiceFourExits(lines: seq<ConsoleLine>, pos: nat)
    requires pos < |lines|
    ensures lines[pos].text == "4" ==> ExposureSession(lines, pos) == [Exited]
    ensures lines[pos].text !in {"1", "2", "3", "4"} ==>
      ExposureSession(lines, pos) == [InvalidOption] + ExposureSession(lines, pos + 1)
  {
  }

  /** The only way option 1 raises on valid numbers is a zero rate. */
  lemma ZeroRateStopsSession(target: real, rate: real)
    ensures SafeHoursMode([target, rate]) == Stopped(ZeroDivisionError) <==> rate == 0.0
    ensures rate != 0.0 ==> SafeHoursMode([target, rate]).SafeHoursShown?
  {
  }

  /** A numbered option whose numbers all follow and convert runs on them. */
  lemma NumbersReachOption(lines: seq<ConsoleLine>, pos: nat)
    requires pos < |lines| && lines[pos].text in {"1", "2", "3"}
    requires pos + 1 + Arity(lines[pos].text) <= |lines|
    requires Converts(lines, pos + 1, Arity(lines[pos].text))
    ensures ReadFloats(lines, pos + 1, Arity(lines[pos].text)).Ok?
    ensures MenuPass(lines, pos) ==
      (RunOption(lines[pos].text, ReadFloats(lines, pos + 1, Arity(lines[pos].text)).value),
       pos + 1 + Arity(lines[pos].text))
  {
  }

  /** Input that ends before a numbered option has read all its numbers stops with EOFError. */
  lemma ShortInputStops(lines: seq<ConsoleLine>, pos: nat)
    requires pos < |lines| && lines[pos].text in {"1", "2", "3"}
    requires |lines| < pos + 1 + Arity(lines[pos].text)
    requires Converts(lines, pos + 1, Arity(lines[pos].text))
    ensures ExposureSession(lines, pos) == [Stopped(EOFError)]
  {
  }

  /** Options 2 and 3 never end the session once their numbers are read. */
  lemma CompareAndEmergencyContinue(v: seq<real>, choice: string)
    requires choice == "2" || choice == "3"
    requires |v| == Arity(choice)
    ensures !Final(RunOption(choice, v))
  {
  }
}
