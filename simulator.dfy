/**
 * The hours simulator (src/lib/simulatorCalculations.ts): weekly and
 * monthly totals of a teacher's hours, the compliance band against the
 * legal limit, the work distribution and the input clamp. Hours are
 * integers here; the one-decimal renderings are not part of this model.
 */
module Simulator {
  import opened Types

  /** The legal weekly limit and the upper edge of the warning band. */
  const LegalLimit := 20
  const WarningThreshold := 24

  /** calculateWeeklyTotal */
  function WeeklyTotal(input: HoursInput): int
  {
    input.basicTeaching + input.adminWork + input.training + input.consulting + input.other
  }

  /** calculateMonthlyTotal: four weeks to the month. */
  function MonthlyTotal(weeklyTotal: int): int
  {
    weeklyTotal * 4
  }

  datatype Compliance = Safe | Warning | Over

  /** getComplianceStatus, without the message text and the percentage. */
  function ComplianceOf(totalHours: int): (r: Compliance)
    ensures r == Safe <==> totalHours <= LegalLimit
    ensures r == Warning <==> LegalLimit < totalHours <= WarningThreshold
    ensures r == Over <==> WarningThreshold < totalHours
  {
    if totalHours <= LegalLimit then Safe
    else if totalHours <= WarningThreshold then Warning
    else Over
  }

  function Severity(c: Compliance): int
  {
    match c
    case Safe => 0
    case Warning => 1
    case Over => 2
  }

  /** More hours never put a teacher in a milder band. */
  lemma ComplianceMonotone(a: int, b: int)
    requires a <= b
    ensures Severity(ComplianceOf(a)) <= Severity(ComplianceOf(b))
  {
  }

  /**
   * calculateDistribution. With a zero total every share is 0; otherwise
   * each share is its hours over the total, kept here as the numerator
   * (teaching, admin, training with consulting, other) over `total`.
   */
  datatype Distribution =
    | NoWork
    | Shares(teaching: int, admin: int, training: int, other: int, total: int)

  function DistributionOf(input: HoursInput, total: int): (r: Distribution)
    ensures total == 0 <==> r == NoWork
    ensures r.Shares? ==> r.total == total
  {
    if total == 0 then NoWork
    else Shares(input.basicTeaching, input.adminWork, input.training + input.consulting, input.other, total)
  }

  /** Of a week's hours, the four shares add up to the whole. */
  lemma SharesCoverTotal(input: HoursInput)
    requires WeeklyTotal(input) != 0
    ensures var d := DistributionOf(input, WeeklyTotal(input));
            d.teaching + d.admin + d.training + d.other == d.total
  {
  }

  datatype CalculatedStats = CalculatedStats(
    totalHours: int,
    monthlyTotal: int,
    distribution: Distribution,
    compliance: Compliance)

  /** calculateStats, without the daily average. */
  function CalculateStats(input: HoursInput): (r: CalculatedStats)
    ensures r.totalHours == input.basicTeaching + input.adminWork + input.training + input.consulting + input.other
    ensures r.monthlyTotal == 4 * r.totalHours
    ensures r.compliance == ComplianceOf(r.totalHours)
    ensures r.distribution.NoWork? <==> r.totalHours == 0
    ensures r.distribution == DistributionOf(input, r.totalHours)
    ensures r.distribution.Shares? ==>
              r.distribution.teaching + r.distribution.admin + r.distribution.training + r.distribution.other
                == r.distribution.total
  {
    var totalHours := WeeklyTotal(input);
    CalculatedStats(totalHours, MonthlyTotal(totalHours), DistributionOf(input, totalHours), ComplianceOf(totalHours))
  }

  /** validateHours on a whole number: clamp into [min, max]; with min > max the result is min. */
  function ClampHours(value: int, min: int, max: int): (r: int)
    ensures min <= max ==> min <= r <= max
    ensures min <= value <= max ==> r == value
    ensures value < min ==> r == min
    ensures min <= max && max < value ==> r == max
    ensures max < min ==> r == min
  {
    var capped := if max < value then max else value;
    if capped < min then min else capped
  }

  /** Clamping twice is clamping once, whatever the bounds. */
  lemma ClampIdempotent(value: int, min: int, max: int)
    ensures ClampHours(ClampHours(value, min, max), min, max) == ClampHours(value, min, max)
  {
  }

  /** The default bounds of validateHours. */
  const DefaultMin := 0
  const DefaultMax := 40
}
