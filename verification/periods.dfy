/** Forecast periods and the conversion of a predicted total between them.

    A prediction is a total over one period ('daily', 'weekly' or 'monthly').
    Converting multiplies by the ratio of the period lengths, with a month
    as long as the calendar month of the prediction date. Unknown period
    names convert with factor 1. */
module Periods {

  import opened Wrappers
  import opened Calendar

  datatype Period = Daily | Weekly | Monthly

  const ValidPeriodNames: seq<string> := ["daily", "weekly", "monthly"]

  function PeriodName(p: Period): (s: string)
    ensures s in ValidPeriodNames
  {
    match p
    case Daily => "daily"
    case Weekly => "weekly"
    case Monthly => "monthly"
  }

  /** Reads one of the three period names; any other text is `None`. */
  function ParsePeriod(s: string): (r: Option<Period>)
    ensures r.Some? <==> s in ValidPeriodNames
    ensures r.Some? ==> PeriodName(r.value) == s
  {
    if s == "daily" then Some(Daily)
    else if s == "weekly" then Some(Weekly)
    else if s == "monthly" then Some(Monthly)
    else None
  }

  lemma ParsePeriodName(p: Period)
    ensures ParsePeriod(PeriodName(p)) == Some(p)
  {
  }

  lemma PeriodNameInjective(a: Period, b: Period)
    ensures PeriodName(a) == PeriodName(b) <==> a == b
  {
    if a != b {
      assert PeriodName(a)[0] != PeriodName(b)[0];
    }
  }

  /** Away from the identity case, scaling multiplies by the factor for the
      month of `d`. */
  lemma ScalePredictionUnfold(x: real, from: string, to: string, d: Date)
    requires Valid(d)
    requires from != to
    ensures ScalePrediction(x, from, to, d) == Times(x, ScaleFactor(from, to, MonthDays(d)))
  {
  }

  /** Days in the month of `d` as a float. prediction.py computes it with the
      shift trick of `Calendar.MonthLengthByShift`; `MonthDaysByShift` shows
      the two agree on every valid date. */
  function MonthDays(d: Date): (n: real)
    requires Valid(d)
    ensures 28.0 <= n <= 31.0
  {
    DaysInMonth(d.year, d.month) as real
  }

  lemma MonthDaysByShift(d: Date)
    requires Valid(d)
    ensures MonthDays(d) == MonthLengthByShift(d) as real
  {
    MonthLengthByShiftIsDaysInMonth(d);
  }

  /** Independent reference: the length in days of a period, a month being
      `dim` days long. */
  function LengthInDays(p: Period, dim: real): real {
    match p
    case Daily => 1.0
    case Weekly => 7.0
    case Monthly => dim
  }

  /** The six entries of the conversion table in `_scale_prediction`
      (prediction.py), for a month of `dim` days. */
  function TableFactor(a: Period, b: Period, dim: real): (f: real)
    requires a != b && dim > 0.0
    ensures f > 0.0
  {
    match (a, b)
    case (Daily, Weekly) => 7.0
    case (Daily, Monthly) => dim
    case (Weekly, Daily) => 1.0 / 7.0
    case (Weekly, Monthly) => dim / 7.0
    case (Monthly, Daily) => 1.0 / dim
    case (Monthly, Weekly) => 7.0 / dim
  }

  /** The conversion factor: identity when the names agree, the table entry
      for two distinct known periods, and 1.0 for any pair the table lacks. */
  function ScaleFactor(from: string, to: string, dim: real): (f: real)
    requires dim > 0.0
    ensures f > 0.0
  {
    if from == to then 1.0
    else match (ParsePeriod(from), ParsePeriod(to))
      case (Some(a), Some(b)) => TableFactor(a, b, dim)
      case _ => 1.0
  }

  /** `_scale_prediction`: the prediction times the conversion factor, with the
      month length taken from the prediction date. */
  function ScalePrediction(x: real, from: string, to: string, d: Date): (y: real)
    requires Valid(d)
    ensures x >= 0.0 ==> y >= 0.0
    ensures from == to ==> y == x
  {
    if from == to then x
    else
      var f := ScaleFactor(from, to, MonthDays(d));
      NonNegativeProduct(x, f);
      Times(x, f)
  }

  lemma NonNegativeProduct(x: real, f: real)
    requires f > 0.0
    ensures x >= 0.0 ==> Times(x, f) >= 0.0
  {
  }

  /** Between known periods the factor is the ratio of the period lengths. */
  lemma ScaleFactorIsLengthRatio(a: Period, b: Period, dim: real)
    requires dim > 0.0
    ensures ScaleFactor(PeriodName(a), PeriodName(b), dim) == LengthInDays(b, dim) / LengthInDays(a, dim)
  {
    ParsePeriodName(a);
    ParsePeriodName(b);
  }

  /** Any name outside the three periods leaves the value unchanged. */
  lemma UnknownPeriodKeepsValue(x: real, from: string, to: string, d: Date)
    requires Valid(d)
    requires from !in ValidPeriodNames || to !in ValidPeriodNames
    ensures ScalePrediction(x, from, to, d) == x
  {
  }

  /** Converting there and back returns the original value. */
  lemma ScaleRoundTrip(x: real, a: Period, b: Period, d: Date)
    requires Valid(d)
    ensures ScalePrediction(ScalePrediction(x, PeriodName(a), PeriodName(b), d), PeriodName(b), PeriodName(a), d) == x
  {
    PeriodNameInjective(a, b);
    if a != b {
      var dim := MonthDays(d);
      var y := ScalePrediction(x, PeriodName(a), PeriodName(b), d);
      ScalePredictionUnfold(x, PeriodName(a), PeriodName(b), d);
      ScalePredictionUnfold(y, PeriodName(b), PeriodName(a), d);
      ScaleFactorIsLengthRatio(a, b, dim);
      ScaleFactorIsLengthRatio(b, a, dim);
      RatioRoundTrip(x, LengthInDays(a, dim), LengthInDays(b, dim));
    }
  }

  lemma RatioRoundTrip(x: real, la: real, lb: real)
    requires la > 0.0 && lb > 0.0
    ensures Times(Times(x, lb / la), la / lb) == x
  {
    var p := lb / la;
    var q := la / lb;
    assert p * la == lb;
    assert q * lb == la;
    assert p * q == 1.0 by {
      assert (p * q) * (la * lb) == (p * la) * (q * lb);
    }
    calc {
      x * (lb / la) * (la / lb);
      x * p * q;
      x * (p * q);
      x * 1.0;
    }
  }

  /** Converting in two steps equals converting directly. */
  lemma ScaleComposes(x: real, a: Period, b: Period, c: Period, d: Date)
    requires Valid(d)
    ensures ScalePrediction(ScalePrediction(x, PeriodName(a), PeriodName(b), d), PeriodName(b), PeriodName(c), d)
         == ScalePrediction(x, PeriodName(a), PeriodName(c), d)
  {
    var dim := MonthDays(d);
    ScaleIsRatio(x, a, b, d);
    ScaleIsRatio(ScalePrediction(x, PeriodName(a), PeriodName(b), d), b, c, d);
    ScaleIsRatio(x, a, c, d);
    RatioComposes(x, LengthInDays(a, dim), LengthInDays(b, dim), LengthInDays(c, dim));
  }

  /** `x · f`. */
  function Times(x: real, f: real): real {
    x * f
  }

  /** Between two of the three periods, scaling multiplies by the ratio of
      their lengths, the identity included. */
  lemma ScaleIsRatio(x: real, a: Period, b: Period, d: Date)
    requires Valid(d)
    ensures LengthInDays(a, MonthDays(d)) > 0.0
    ensures ScalePrediction(x, PeriodName(a), PeriodName(b), d)
         == Times(x, LengthInDays(b, MonthDays(d)) / LengthInDays(a, MonthDays(d)))
  {
    var dim := MonthDays(d);
    PeriodNameInjective(a, b);
    if a == b {
      var l := LengthInDays(a, dim);
      assert l / l == 1.0;
    } else {
      ScaleFactorIsLengthRatio(a, b, dim);
      ScalePredictionUnfold(x, PeriodName(a), PeriodName(b), d);
    }
  }

  lemma RatioComposes(x: real, la: real, lb: real, lc: real)
    requires la > 0.0 && lb > 0.0 && lc > 0.0
    ensures Times(Times(x, lb / la), lc / lb) == Times(x, lc / la)
  {
    var p := lb / la;
    var q := lc / lb;
    var r := lc / la;
    assert p * la == lb;
    assert q * lb == lc;
    assert r * la == lc;
    assert p * q == r by {
      assert (p * q) * la == q * lb;
    }
    assert x * p * q == x * (p * q);
  }

  /** The older forecaster's factor (`_scale_prediction_by_period` with its
      three helper scales in demand_forecast_model.py): daily-to-weekly 7,
      daily-to-monthly the month length, weekly-to-monthly the month length
      over 7, the reverse directions their reciprocals. */
  function LegacyScaleFactor(from: string, to: string, dim: real): (f: real)
    requires dim > 0.0
    ensures f > 0.0
  {
    var dailyToWeekly := 7.0;
    var dailyToMonthly := dim;
    var weeklyToMonthly := dim / 7.0;
    if from == to then 1.0
    else match (ParsePeriod(from), ParsePeriod(to))
      case (Some(Daily), Some(Weekly)) => dailyToWeekly
      case (Some(Daily), Some(Monthly)) => dailyToMonthly
      case (Some(Weekly), Some(Daily)) => 1.0 / dailyToWeekly
      case (Some(Weekly), Some(Monthly)) => weeklyToMonthly
      case (Some(Monthly), Some(Daily)) => 1.0 / dailyToMonthly
      case (Some(Monthly), Some(Weekly)) => 1.0 / weeklyToMonthly
      case _ => 1.0
  }

  function LegacyScalePrediction(x: real, from: string, to: string, d: Date): (y: real)
    requires Valid(d)
    ensures from == to ==> y == x
    ensures x >= 0.0 ==> y >= 0.0
  {
    if from == to then x
    else
      var f := LegacyScaleFactor(from, to, MonthDays(d));
      NonNegativeProduct(x, f);
      Times(x, f)
  }

  /** Both forecasters convert every value identically, for every pair of names. */
  lemma LegacyScaleAgrees(x: real, from: string, to: string, d: Date)
    requires Valid(d)
    ensures LegacyScalePrediction(x, from, to, d) == ScalePrediction(x, from, to, d)
  {
    LegacyFactorAgrees(from, to, MonthDays(d));
  }

  lemma LegacyFactorAgrees(from: string, to: string, dim: real)
    requires dim > 0.0
    ensures LegacyScaleFactor(from, to, dim) == ScaleFactor(from, to, dim)
  {
    ReciprocalOfWeeksInMonth(dim);
  }

  lemma ReciprocalOfWeeksInMonth(dim: real)
    requires dim > 0.0
    ensures 1.0 / (dim / 7.0) == 7.0 / dim
  {
    var u := dim / 7.0;
    assert u * 7.0 == dim;
    var v := 7.0 / dim;
    assert v * dim == 7.0;
    assert v * u == 1.0 by {
      assert v * u * 7.0 == v * dim;
    }
  }

  /** Example: a daily forecast of 2 units is 14 units a week and 62 units in a 31-day month. */
  lemma ScaleExamples()
    ensures ScalePrediction(2.0, "daily", "weekly", Date(2024, 1, 15)) == 14.0
    ensures ScalePrediction(2.0, "daily", "monthly", Date(2024, 1, 15)) == 62.0
    ensures ScalePrediction(58.0, "monthly", "daily", Date(2024, 2, 10)) == 2.0
  {
    assert MonthDays(Date(2024, 1, 15)) == 31.0;
    assert MonthDays(Date(2024, 2, 10)) == 29.0;
  }
}
