/**
 * The reactor core designer of reactor_diagram/reactor_designer.py: a zeroed square
 * grid of side 2r + 1 is filled, cell by cell, with one fuel value inside the disk of
 * radius r around the centre; a k-effective estimate is rounded to three decimals and
 * classified.
 */
module ReactorDesigner {

  /** Slider ranges of the screen. */
  const MinEnrichment: real := 0.7
  const MaxEnrichment: real := 5.0
  const MinRodLevel: real := 0.0
  const MaxRodLevel: real := 100.0

  /**
   * `distance <= core_radius` with distance = sqrt((i - r)^2 + (j - r)^2). Both sides are
   * non-negative, so the test is the same as comparing squares, which stays in integers.
   */
  predicate InDisk(i: int, j: int, radius: nat) {
    (i - radius) * (i - radius) + (j - radius) * (j - radius) <= radius * radius
  }

  /** `enrichment * (1 - control_rod_level / 100)` */
  function FuelEffectiveness(enrichment: real, rodLevel: real): real {
    enrichment * (1.0 - rodLevel / 100.0)
  }

  /** The value a cell holds once the grid is filled. */
  function CellValue(i: int, j: int, radius: nat, enrichment: real, rodLevel: real): real {
    if InDisk(i, j, radius) then FuelEffectiveness(enrichment, rodLevel) else 0.0
  }

  /** The grid fill: np.zeros, then the nested loops that write the disk. */
  method FillCore(enrichment: real, rodLevel: real, radius: nat) returns (core: array2<real>)
    ensures fresh(core)
    ensures core.Length0 == 2 * radius + 1 && core.Length1 == 2 * radius + 1
    ensures forall i, j :: 0 <= i < core.Length0 && 0 <= j < core.Length1 ==>
      core[i, j] == CellValue(i, j, radius, enrichment, rodLevel)
  {
    var gridSize := radius * 2 + 1;
    core := new real[gridSize, gridSize]((_, _) => 0.0);
    var i := 0;
    while i < gridSize
      invariant 0 <= i <= gridSize
      invariant forall a, b :: 0 <= a < i && 0 <= b < gridSize ==>
        core[a, b] == CellValue(a, b, radius, enrichment, rodLevel)
      invariant forall a, b :: i <= a < gridSize && 0 <= b < gridSize ==> core[a, b] == 0.0
    {
      var j := 0;
      while j < gridSize
        invariant 0 <= j <= gridSize
        invariant forall a, b :: 0 <= a < i && 0 <= b < gridSize ==>
          core[a, b] == CellValue(a, b, radius, enrichment, rodLevel)
        invariant forall b :: 0 <= b < j ==> core[i, b] == CellValue(i, b, radius, enrichment, rodLevel)
        invariant forall b :: j <= b < gridSize ==> core[i, b] == 0.0
        invariant forall a, b :: i < a < gridSize && 0 <= b < gridSize ==> core[a, b] == 0.0
      {
        if (i - radius) * (i - radius) + (j - radius) * (j - radius) <= radius * radius {
          var fuelEffectiveness := enrichment * (1.0 - rodLevel / 100.0);
          core[i, j] := fuelEffectiveness;
        }
        j := j + 1;
      }
      i := i + 1;
    }
  }

  /** The centre cell is always inside the disk. */
  lemma CentreInDisk(radius: nat)
    ensures InDisk(radius, radius, radius)
  {
  }

  /** The disk fits in the grid: every point of it is a cell. */
  lemma DiskInsideGrid(i: int, j: int, radius: nat)
    requires InDisk(i, j, radius)
    ensures 0 <= i <= 2 * radius && 0 <= j <= 2 * radius
  {
    var di, dj := i - radius, j - radius;
    assert di * di <= radius * radius by { assert 0 <= dj * dj; }
    assert dj * dj <= radius * radius by { assert 0 <= di * di; }
    SquareBound(di, radius);
    SquareBound(dj, radius);
  }

  lemma SquareBound(d: int, r: nat)
    requires d * d <= r * r
    ensures -(r as int) <= d <= r
  {
  }

  /** The disk is symmetric under reflection in each axis and under transposition. */
  lemma DiskSymmetric(i: int, j: int, radius: nat)
    ensures InDisk(i, j, radius) <==> InDisk(2 * radius - i, j, radius)
    ensures InDisk(i, j, radius) <==> InDisk(i, 2 * radius - j, radius)
    ensures InDisk(i, j, radius) <==> InDisk(j, i, radius)
  {
    assert (2 * radius - i - radius) * (2 * radius - i - radius) == (i - radius) * (i - radius);
    assert (2 * radius - j - radius) * (2 * radius - j - radius) == (j - radius) * (j - radius);
  }

  /** Fully inserted rods leave no fuel value anywhere in the grid. */
  lemma FullRodsEmptyCore(i: int, j: int, radius: nat, enrichment: real)
    ensures CellValue(i, j, radius, enrichment, MaxRodLevel) == 0.0
  {
  }

  // ---------------------------------------------------------------- the summary

  /** `(enrichment / 5) * (1 - control_rod_level / 100)` before rounding. */
  function KEffRaw(enrichment: real, rodLevel: real): real {
    (enrichment / 5.0) * (1.0 - rodLevel / 100.0)
  }

  /** Python's round to the nearest integer, ties going to the even neighbour. */
  function RoundHalfEven(x: real): (n: int)
    ensures -0.5 <= n as real - x <= 0.5
    ensures (n as real - x == 0.5 || x - n as real == 0.5) ==> n % 2 == 0
  {
    var k := x.Floor;
    var frac := x - k as real;
    if frac < 0.5 then k
    else if frac > 0.5 then k + 1
    else if k % 2 == 0 then k
    else k + 1
  }

  /**
   * `round(x, 3)` on an exact real: the nearest multiple of 0.001, a tie going to the
   * even multiple.
   */
  function Round3(x: real): (r: real)
    ensures (r * 1000.0).Floor as real == r * 1000.0
    ensures -0.0005 <= r - x <= 0.0005
    ensures (r - x == 0.0005 || x - r == 0.0005) ==> (r * 1000.0).Floor % 2 == 0
  {
    RoundHalfEven(x * 1000.0) as real / 1000.0
  }

  /** k_eff_estimate */
  function KEffEstimate(enrichment: real, rodLevel: real): real {
    Round3(KEffRaw(enrichment, rodLevel))
  }

  datatype CoreStatus = Subcritical | Critical | Supercritical

  /** The if/elif chain on the rounded estimate. */
  function ClassifyCore(k: real): (s: CoreStatus)
    ensures s == Subcritical <==> k < 0.95
    ensures s == Critical <==> 0.95 <= k <= 1.05
    ensures s == Supercritical <==> k > 1.05
  {
    if k < 0.95 then Subcritical
    else if 0.95 <= k <= 1.05 then Critical
    else Supercritical
  }

  /** A raw estimate of 0.9495 lies halfway and rounds up to the even 0.950: Critical. */
  lemma TieRoundsToEven()
    ensures Round3(0.9495) == 0.95
    ensures ClassifyCore(Round3(0.9495)) == Critical
  {
    assert RoundHalfEven(949.5) == 950;
  }

  /** No value of at most 1 rounds above 1, because 1 is a multiple of 0.001. */
  lemma Round3AtMostOne(x: real)
    requires x <= 1.0
    ensures Round3(x) <= 1.0
  {
    var y := x * 1000.0;
    var k := y.Floor;
    if k >= 1000 {
      assert y == 1000.0;
      assert RoundHalfEven(y) == 1000;
    } else {
      assert RoundHalfEven(y) <= k + 1 <= 1000;
    }
  }

  /** Inside the slider ranges the estimate never exceeds 1, so the core is never supercritical. */
  lemma SupercriticalUnreachable(enrichment: real, rodLevel: real)
    requires MinEnrichment <= enrichment <= MaxEnrichment
    requires MinRodLevel <= rodLevel <= MaxRodLevel
    ensures KEffEstimate(enrichment, rodLevel) <= 1.0
    ensures ClassifyCore(KEffEstimate(enrichment, rodLevel)) != Supercritical
  {
    var e, p := enrichment / 5.0, 1.0 - rodLevel / 100.0;
    assert 0.0 <= e <= 1.0 && 0.0 <= p <= 1.0;
    assert e * p <= 1.0 * p by { assert (1.0 - e) * p >= 0.0; }
    Round3AtMostOne(KEffRaw(enrichment, rodLevel));
  }

  /** Fully inserted rods give an estimate of exactly 0: subcritical. */
  lemma FullRodsSubcritical(enrichment: real)
    ensures KEffEstimate(enrichment, MaxRodLevel) == 0.0
    ensures ClassifyCore(KEffEstimate(enrichment, MaxRodLevel)) == Subcritical
  {
    assert KEffRaw(enrichment, MaxRodLevel) == 0.0;
    assert RoundHalfEven(0.0) == 0;
  }
}
